/**
  The gesture action as the interaction drives it: `start`, `move` and `end`
  update the interaction's gesture record in place, and the delta handler
  fills in the fields of each gesture event as it is built.

  Dispatching an event to the target (`target.fire`) has no effect on the
  engine; the ghost log `fired` records what was dispatched.
 */
module GestureEngine {
  import opened JsNumber
  import opened GestureModel

  /** An InteractEvent of the gesture action; the delta handler writes its gesture fields. */
  class InteractEvent {
    const phase: Phase
    var touches: seq<Option<Pointer>>
    var distance: Num
    var box: Option<Box>
    var scale: Num
    var ds: Num
    var angle: Num
    var da: Num

    /** The gesture fields of this event. */
    function Values(): EventValues
      reads this
    {
      EventValues(touches, distance, box, scale, ds, angle, da)
    }

    /** A new event of the given phase, before the delta handler has run. */
    constructor (phase: Phase)
      ensures this.phase == phase && Values() == Unfilled
    {
      this.phase := phase;
      touches, distance, box, scale := [], Undefined, None, Undefined;
      ds, angle, da := Undefined, Undefined, Undefined;
    }
  }

  /** The part of an interaction the gesture action reads and writes. */
  class Interaction {
    var pointers: seq<Pointer>
    var pointerIds: seq<PointerId>
    var prevEvent: InteractEvent?
    var gesture: GestureState
    var interacting: bool
    /** Whether a gesture is between its start and its end (the protocol; the code does not check it). */
    ghost var gestureActive: bool
    /** The gesture fields of every event dispatched to the target, oldest first. */
    ghost var fired: seq<EventValues>

    /** While a gesture runs, its accepted scale passes the guard. */
    ghost predicate Valid()
      reads this
    {
      gestureActive ==> ScaleAccepted(gesture.scale)
    }

    /** The gesture fields of the previous event, all undefined when there is none. */
    function PrevValues(): EventValues
      reads this, prevEvent
    {
      if prevEvent == null then Unfilled else prevEvent.Values()
    }

    constructor (pointers: seq<Pointer>, pointerIds: seq<PointerId>, gesture: GestureState)
      ensures this.pointers == pointers && this.pointerIds == pointerIds && this.gesture == gesture
      ensures prevEvent == null && !interacting && !gestureActive && fired == []
      ensures Valid()
    {
      this.pointers, this.pointerIds, this.gesture := pointers, pointerIds, gesture;
      prevEvent, interacting := null, false;
      gestureActive, fired := false, [];
    }

    /**
      The `interactevent-delta` handler, called with this interaction while
      `iEvent` is being built. Events of other actions are left alone.
     */
    method DeltaHandler(geo: Geometry, iEvent: InteractEvent, arg: DeltaArg)
      requires arg.action == "gesture" && BranchOf(arg) == Frozen ==> prevEvent != null
      modifies iEvent
      ensures arg.action != "gesture" ==> iEvent.Values() == old(iEvent.Values())
      ensures arg.action == "gesture" ==> iEvent.Values() == EnrichedValues(geo, pointers, gesture, old(PrevValues()), arg)
    {
      if arg.action != "gesture" {
        return;
      }
      iEvent.touches := [PointerAt(pointers, 0), PointerAt(pointers, 1)];
      if arg.starting {
        iEvent.distance := geo.touchDistance(pointers, arg.deltaSource);
        iEvent.box := Some(geo.touchBBox(pointers));
        iEvent.scale := One;
        iEvent.ds := Zero;
        iEvent.angle := geo.touchAngle(pointers, Undefined, arg.deltaSource);
        iEvent.da := Zero;
      } else if arg.ending || arg.event.InteractEventInput? {
        iEvent.distance := prevEvent.distance;
        iEvent.box := prevEvent.box;
        iEvent.scale := prevEvent.scale;
        iEvent.ds := Sub(iEvent.scale, One);
        iEvent.angle := prevEvent.angle;
        iEvent.da := Sub(iEvent.angle, gesture.startAngle);
      } else {
        iEvent.distance := geo.touchDistance(pointers, arg.deltaSource);
        iEvent.box := Some(geo.touchBBox(pointers));
        iEvent.scale := Div(iEvent.distance, gesture.startDistance);
        iEvent.angle := geo.touchAngle(pointers, gesture.prevAngle, arg.deltaSource);
        iEvent.ds := Sub(iEvent.scale, gesture.prevScale);
        iEvent.da := Sub(iEvent.angle, gesture.prevAngle);
      }
    }

    /** `new InteractEvent(interaction, event, 'gesture', phase, element)`: a new event, enriched by the delta handler. */
    method NewGestureEvent(geo: Geometry, phase: Phase, event: RawEvent, src: DeltaSource) returns (e: InteractEvent)
      requires BranchOf(ArgFor(phase, event, src)) == Frozen ==> prevEvent != null
      ensures fresh(e) && e.phase == phase
      ensures e.Values() == EnrichedValues(geo, pointers, gesture, PrevValues(), ArgFor(phase, event, src))
    {
      e := new InteractEvent(phase);
      DeltaHandler(geo, e, ArgFor(phase, event, src));
    }

    /** Dispatch to the target: no effect on the engine, recorded in the ghost log. */
    ghost method Fire(e: InteractEvent)
      modifies this`fired
      ensures fired == old(fired) + [e.Values()]
    {
      fired := fired + [e.Values()];
    }

    /**
      `start`: builds and dispatches the start event with `ds = 0`, takes the
      start and previous distance and angle from it, sets the scale to 1 and
      marks the interaction as interacting.
     */
    method Start(geo: Geometry, event: RawEvent, src: DeltaSource) returns (e: InteractEvent)
      requires !gestureActive
      modifies this
      ensures fresh(e) && e.phase == Phase.Start
      ensures e.Values() == StartEvent(geo, pointers, old(gesture), src)
      ensures gesture == StartState(old(gesture), e.Values())
      ensures interacting && gestureActive && Valid()
      ensures fired == old(fired) + [e.Values()]
      ensures pointers == old(pointers) && pointerIds == old(pointerIds) && prevEvent == old(prevEvent)
    {
      e := NewGestureEvent(geo, Phase.Start, event, src);
      e.ds := Zero;
      gesture := gesture.(startDistance := e.distance, prevDistance := e.distance);
      gesture := gesture.(startAngle := e.angle, prevAngle := e.angle);
      gesture := gesture.(scale := One);
      interacting := true;
      Fire(e);
      gestureActive := true;
    }

    /**
      `move`: with no pointer down, returns the previous event and changes
      nothing. Otherwise builds the move event, sets its `ds` to the change
      from the accepted scale, dispatches it, moves the previous angle and
      distance to it, and accepts its scale only if the guard lets it through.
     */
    method Move(geo: Geometry, event: RawEvent, src: DeltaSource) returns (e: InteractEvent?)
      requires gestureActive && Valid()
      requires pointerIds != [] && event.InteractEventInput? ==> prevEvent != null
      modifies this
      ensures gestureActive && Valid()
      ensures pointers == old(pointers) && pointerIds == old(pointerIds) && prevEvent == old(prevEvent)
      ensures interacting == old(interacting)
      ensures pointerIds == [] ==> e == prevEvent && gesture == old(gesture) && fired == old(fired)
      ensures pointerIds != [] ==>
                && e != null && fresh(e) && e.phase == Phase.Move
                && e.Values() == MoveEvent(geo, pointers, old(gesture), old(PrevValues()), event, src)
                && gesture == MoveState(old(gesture), e.Values())
                && fired == old(fired) + [e.Values()]
    {
      if |pointerIds| == 0 {
        return prevEvent;
      }
      var gestureEvent := NewGestureEvent(geo, Phase.Move, event, src);
      gestureEvent.ds := Sub(gestureEvent.scale, gesture.scale);
      Fire(gestureEvent);
      gesture := gesture.(prevAngle := gestureEvent.angle);
      gesture := gesture.(prevDistance := gestureEvent.distance);
      if gestureEvent.scale != PosInf && gestureEvent.scale != Null
         && gestureEvent.scale != Undefined && !IsNaN(gestureEvent.scale) {
        gesture := gesture.(scale := gestureEvent.scale);
      }
      return gestureEvent;
    }

    /**
      `end`: builds and dispatches the end event, which repeats the previous
      event's geometry. The gesture record is left for the caller to discard.
     */
    method End(geo: Geometry, event: RawEvent, src: DeltaSource)
      requires gestureActive && prevEvent != null
      modifies this
      ensures !gestureActive
      ensures fired == old(fired) + [EndEvent(geo, pointers, gesture, old(prevEvent.Values()), event, src)]
      ensures gesture == old(gesture) && interacting == old(interacting)
      ensures pointers == old(pointers) && pointerIds == old(pointerIds) && prevEvent == old(prevEvent)
    {
      var endEvent := NewGestureEvent(geo, Phase.End, event, src);
      Fire(endEvent);
      gestureActive := false;
    }
  }

  /**
    The interaction's side of one gesture, using only the contracts above:
    two pointers 10 apart start it, 20 apart double the scale, a glitch that
    measures no distance freezes the scale, a tick with no pointer returns the
    previous event, and the end event repeats the last geometry.
   */
  method GestureClient(geo: Geometry, src: DeltaSource, near: seq<Pointer>, far: seq<Pointer>, glitch: seq<Pointer>, g0: GestureState)
    requires geo.touchDistance(near, src) == Finite(10.0)
    requires geo.touchDistance(far, src) == Finite(20.0)
    requires geo.touchDistance(glitch, src) == NaN
  {
    var ia := new Interaction(near, [1, 2], g0);
    var s := ia.Start(geo, PointerInput, src);
    assert s.distance == Finite(10.0) && s.scale == One && s.ds == Zero && s.da == Zero;
    ia.prevEvent := s;

    ia.pointers := far;
    var m := ia.Move(geo, PointerInput, src);
    assert m.distance == Finite(20.0) && m.scale == Finite(2.0) && m.ds == Finite(1.0);
    assert ia.gesture.scale == Finite(2.0);
    ia.prevEvent := m;

    ia.pointers := glitch;
    var m' := ia.Move(geo, PointerInput, src);
    assert m'.scale == NaN && m'.ds == NaN;
    assert ia.gesture.scale == Finite(2.0);
    ia.prevEvent := m';
    IdleTickThenEnd(ia, geo, src);
  }

  /**
    A tick with no pointer down returns the previous event and leaves the
    gesture record alone; the end event then repeats that event's geometry.
   */
  method IdleTickThenEnd(ia: Interaction, geo: Geometry, src: DeltaSource)
    requires ia.gestureActive && ia.Valid() && ia.prevEvent != null
    modifies ia
  {
    var prev := ia.prevEvent;
    ghost var g := ia.gesture;
    ia.pointerIds := [];
    var same := ia.Move(geo, PointerInput, src);
    assert same == prev && ia.gesture == g;
    ia.End(geo, PointerInput, src);
    assert SameGeometry(ia.fired[|ia.fired| - 1], prev.Values());
  }
}
