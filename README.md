# Gesture action of interact.js, modelled in Dafny

This project models the gesture action of interact.js (`src/actions/gesture.js`).
The gesture action recognises two-pointer pinch and rotate manipulations. It has
these parts:

- an eligibility check (two or more pointers down);
- `start`, `move` and `end`, which build and dispatch gesture events and keep the
  interaction's `gesture` record (start and previous distance and angle, and the
  last accepted scale);
- the `interactevent-delta` handler, which fills in each gesture event's
  `distance`, `box`, `scale`, `angle`, `ds`, `da` and `touches`;
- `Interactable.prototype.gesturable`, which gets or sets the `enabled` flag.

The files are:

- `js_number.dfy` (module `JsNumber`): JavaScript numbers as
  `Finite(real) | NaN | PosInf | NegInf | Null | Undefined`. It has subtraction and
  division with ToNumber coercion and IEEE special values, `isNaN`, and the
  scale guard `ScaleAccepted`.
- `gesture_model.dfy` (module `GestureModel`): the gesture record, the gesture
  fields of an event, the delta-handler argument, the eligibility check. It also
  has the functions that say what each step computes: `EnrichedValues`,
  `StartEvent`/`StartState`, `MoveEvent`/`MoveState` and `EndEvent`.
- `gesture_engine.dfy` (module `GestureEngine`): the imperative part.
  - `InteractEvent` is a class whose fields the delta handler writes in place.
  - `Interaction` holds the `gesture` record, `prevEvent`, the pointers and
    `_interacting`. Its methods `DeltaHandler`, `Start`, `Move` and `End` are
    proved against the functions above.
  - A ghost log `fired` records what `target.fire` dispatched.
  - A ghost flag `gestureActive` states the start → move* → end protocol as
    preconditions. The source does not check this protocol.
  - `GestureClient` walks through a worked example using only the method
    contracts: distance 10, then 20, then a glitch, then a tick with no pointer,
    then the end.
- `gesture_session.dfy` (module `GestureSession`): a whole gesture, with the
  move steps folded over a sequence of samples. It proves:
  - the accepted scale is never replaced by NaN, +Infinity, null or undefined;
  - when every distance measured is non-negative, NaN or +Infinity, and the end
    event's `ds` is finite, the finite `ds` values of the moves add up to it;
  - when every move is pointer-driven and the angles measured for the start
    pointers and for every sample are finite, the moves' `da` values add up to
    the end event's `da`.
- `gesturable.dfy` (module `Gesturable`): the gesture options with their
  defaults, and `gesturable`.
- `gesture_as_written.dfy` (module `GestureAsWritten`): two handler lines
  modelled as written (see Findings).

Numbers: the geometry helpers `touchDistance`, `touchAngle` and `touchBBox` are
not part of this model. They are the function fields of a `Geometry` value passed
as a parameter, so every result holds for any geometry. Where a lemma needs
more, it says so: distances are non-negative, or NaN, or +Infinity; angles are
finite.

Where the documentation and the code disagree, the model follows the code:

- The scale guard (src/actions/gesture.js:64-67) rejects +Infinity, null,
  undefined and NaN, but it lets -Infinity through. The documented invariant
  "scale is always finite" therefore holds only when no event's scale is
  -Infinity. `MoveState` and `ScaleStaysAccepted` state what the code does.
  `ScaleDeltasTelescope` proves finiteness under the premise that distances
  are not negative.
- The move branch of the handler computes `ds` against `gesture.prevScale`
  (line 155). No gesture step writes that field. While it is undefined, that
  `ds` is NaN. `move` then overwrites `ds` with the change from the accepted
  scale (line 57), so listeners see only the line-57 value. The model keeps
  both definitions: `MoveDsOverridesHandlerDs` states the NaN and the override.
- When the new scale is non-finite, the guard keeps the old scale in the same
  step, not in the next one. The event that carries the invalid scale is still
  dispatched with it, and its `ds` is not finite.
- The doc comment of `gesturable` says the getter returns a boolean. The code
  returns the `options.gesture` object (line 122), and so does the model.

## Model

| member | source | states |
|---|---|---|
| JsNumber.IsNaN | src/actions/gesture.js:67 | `isNaN` coerces: it is true exactly for NaN and undefined |
| JsNumber.ScaleAccepted | src/actions/gesture.js:64-67 | the guard accepts exactly the finite numbers and -Infinity; it rejects +Infinity, NaN, null and undefined |
| JsNumber.Sub | src/actions/gesture.js:57 | JavaScript `-`: a NaN or undefined operand gives NaN; finite operands (null counting as 0) give their exact difference; the result is always a number |
| JsNumber.Div | src/actions/gesture.js:152 | JavaScript `/`: finite over non-zero finite is the exact quotient; anything over zero is never finite; non-negative over non-negative is never negative |
| GestureModel.Checker | src/actions/gesture.js:19-25 | matches `{name: 'gesture'}` if and only if two or more pointer ids are present, and returns no match otherwise |
| GestureModel.BranchOf | src/actions/gesture.js:133-149 | the handler takes the start branch exactly when starting; the copy branch exactly when not starting and either ending or built from an InteractEvent; otherwise the move branch |
| GestureModel.EnrichedValues | src/actions/gesture.js:131-157 | touches are `[pointers[0], pointers[1]]` (undefined past the end). Start: fresh distance, box and absolute angle, scale 1, ds 0, da 0. End or synthetic: the previous event's distance, box, scale and angle, ds = scale − 1, da = angle − start angle. Move: fresh geometry, scale = distance / start distance, angle unwrapped against the previous angle, da = angle − previous angle |
| GestureModel.StartEvent | src/actions/gesture.js:34-36 | the start event has ds 0, scale 1, da 0, the measured distance and the absolute angle |
| GestureModel.StartState | src/actions/gesture.js:38-40 | after start, start distance = previous distance = the event's distance, start angle = previous angle = the event's angle, and scale = 1 |
| GestureModel.MoveEvent | src/actions/gesture.js:56-57 | a move event's ds is its scale minus the accepted scale from before this step; with a pointer sample, scale is the distance ratio and da the rotation since the previous step; with a synthetic input, the previous geometry is repeated |
| GestureModel.MoveState | src/actions/gesture.js:61-70 | previous angle and distance always follow the event; the scale becomes the event's scale exactly when the guard accepts it and stays otherwise; an accepted scale stays accepted; start fields and prevScale are untouched |
| GestureModel.EndEvent | src/actions/gesture.js:141-148 | the end event repeats the previous event's distance, box, scale and angle; ds = previous scale − 1 and da = previous angle − start angle |
| GestureModel.MoveScaleIsDistanceRatio | src/actions/gesture.js:152 | with a finite non-zero start distance and a finite distance, scale × start distance = distance |
| GestureModel.MoveDsOverridesHandlerDs | src/actions/gesture.js:155 | while prevScale is undefined, the handler's move ds is NaN; the dispatched ds is instead computed from the accepted scale, and it is finite when both scales are finite |
| GestureSession.RunMoves | src/actions/gesture.js:49-73 | each move step dispatches at most one event; a step with no pointer dispatches nothing and changes nothing; the previous event is the last dispatched one |
| GestureSession.ScaleStaysAccepted | src/actions/gesture.js:64-70 | over any number of moves with any geometry, an accepted scale never becomes NaN, +Infinity, null or undefined; start distance, start angle and prevScale never change |
| GestureSession.PrevFieldsTrackPrevEvent | src/actions/gesture.js:61-62 | the record's previous angle and distance always equal those of the previous event |
| GestureSession.AngleDeltasTelescope | src/actions/gesture.js:153-156 | over pointer-driven moves whose measured angles are finite for every sample's pointers, the sum of the da values is the final previous angle minus the initial one |
| GestureSession.ScaleDeltasTelescope | src/actions/gesture.js:57-70 | over any moves, glitches included, the accepted scale stays finite when distances are not negative, and the finite ds values sum to the change of the accepted scale |
| GestureSession.EndReportsAccumulatedDeltas | src/actions/gesture.js:141-148 | after start and any moves, the end event repeats the last geometry; its ds (when finite) is the sum of the moves' finite ds; with pointer-driven moves and finite angles measured for the start pointers and every sample, its da is the sum of the moves' da |
| GestureEngine.InteractEvent.constructor | src/actions/gesture.js:34 | a new event of the given phase has every gesture field undefined until the handler runs |
| GestureEngine.Interaction.DeltaHandler | src/actions/gesture.js:125-158 | events of other actions are left untouched; a gesture event's fields become `EnrichedValues` of the interaction's pointers, its gesture record and its previous event |
| GestureEngine.Interaction.NewGestureEvent | src/actions/gesture.js:56 | a fresh event of the phase, enriched by the handler before anything else sees it |
| GestureEngine.Interaction.Fire | src/actions/gesture.js:44 | dispatch appends the event's fields to the log and changes nothing else |
| GestureEngine.Interaction.Start | src/actions/gesture.js:33-47 | returns a fresh start event (`StartEvent`); the record becomes `StartState`; `_interacting` is set; the event is dispatched once |
| GestureEngine.Interaction.Move | src/actions/gesture.js:49-73 | with no pointer, returns the previous event itself and changes nothing; otherwise returns and dispatches a fresh `MoveEvent`, and the record becomes `MoveState`; the accepted scale stays accepted |
| GestureEngine.Interaction.End | src/actions/gesture.js:75-79 | dispatches `EndEvent` built from the previous event, and leaves the record and the interaction unchanged |
| Gesturable.GestureOptions.Defaults | src/actions/gesture.js:10-17 | defaults: not enabled, no manual start, max +Infinity, one per element, no restriction |
| Gesturable.EnabledAfter | src/actions/gesture.js:107-122 | an object enables gestures unless its `enabled` is exactly false; a boolean becomes the flag; anything else leaves the flag |
| Gesturable.Interactable.Gesturable | src/actions/gesture.js:107-123 | the setter forms return the interactable, and the getter form returns the options object; the flag becomes `EnabledAfter`; other options are untouched except by an object argument |
| Gesturable.FlagFollowsLastSetter | src/actions/gesture.js:107-123 | after any sequence of calls, the flag is the one the last setter call chose, or the initial flag if there was none |
| GestureAsWritten.UndefinedNames | src/actions/gesture.js:128 | destructuring leaves undefined exactly the names the source object has no property for |
| GestureAsWritten.HandlerCompletion | src/actions/gesture.js:128-141 | for a gesture event, the handler throws a TypeError exactly when `interaction` is not bound (line 129) or `iEvent` is not bound (line 131), and a ReferenceError exactly when both are bound, the event is neither starting nor ending (an unbound flag counts as false) and no global `event` exists (line 141); other actions complete normally |
| GestureAsWritten.HandlerThrowsAsWritten | src/actions/gesture.js:128 | destructuring from `{arg}` leaves all five names undefined, so every gesture event throws a TypeError; destructuring from the argument binds them all, and the handler then never throws a TypeError and throws a ReferenceError exactly where the line-141 test does |
| GestureAsWritten.BranchAsWritten | src/actions/gesture.js:133-141 | the branch test as written agrees with the intended one when starting or ending; otherwise it throws a ReferenceError exactly when no global `event` exists |
| GestureAsWritten.BranchTestMisroutesAsWritten | src/actions/gesture.js:141 | a synthetic move event in a browser goes to the move branch instead of the copy branch; a pointer move with no global `event` throws |

## Left out

- Event dispatch (`interaction.target.fire`): it is a call with no effect on the engine, recorded only in the ghost log `fired`. Listeners that mutate events are not modelled.
- The `signals.on` registration (line 125): the handler is a method that event construction (`NewGestureEvent`) calls directly.
- The internals of `InteractEvent` construction: only the gesture fields the handler fills are modelled. The `deltaSource` option is a parameter.
- The geometry helpers `utils.touchDistance`, `touchAngle` and `touchBBox`: they are parameters. With fewer than two pointers they may throw in the source; the model treats them as total.
- IEEE-754 arithmetic: finite results are exact reals. Rounding, overflow of a finite quotient to ±Infinity, and signed zero are not modelled; a zero divisor counts as +0.
- Gesturable.Interactable.Gesturable: with an object argument, the source also passes the whole object to `setPerAction` and `setOnEvents` (lines 110-111), which are not part of this model. The flag the contract states is the one line 109 sets; `setPerAction` may reassign it (`enabled` is among the gesture options) when the object's `enabled` is present but not a boolean. The contract makes no claim about the other options in that case.
- `defaultOptions.gesture`, `scope.eventTypes`, `base.names`, `base.gesture` and `base.methodDict` (lines 160-172): module wiring into code that is not part of this model.
- `getCursor`, `beforeStart` and `stop` (lines 27-31, 81): a constant and two blanks.
- GestureModel.Checker: it takes the interaction's pointer ids only. The other four parameters of `checker` are unused by the source.
- A null `prevEvent` where the copy branch dereferences it (and in `end`) would throw in the source. The model requires a previous event there instead of modelling the TypeError.
- The start → move* → end order is a ghost flag and preconditions. The source does not enforce it.
- `interaction.prevEvent` is assigned by the interaction, not by this file. The session model and the client method assume each returned event is recorded there.

## Findings

| source | as written | input that shows it | evidently intended | confidence | as-written member | corrected member |
|---|---|---|---|---|---|---|
| src/actions/gesture.js:128 | `const { interaction, iEvent, starting, ending, deltaSource } = {arg};` destructures from a new object whose only property is `arg`, so all five names are undefined and `interaction.pointers` (line 129) throws a TypeError | any signal argument whose action is `'gesture'` | destructure from `arg` itself | high, not executed | GestureAsWritten.HandlerThrowsAsWritten | GestureEngine.Interaction.DeltaHandler |
| src/actions/gesture.js:141 | `ending \|\| event instanceof InteractEvent` reads a free identifier `event`, not the event the InteractEvent is built from | reachable only once line 128 is corrected, since line 129 throws first: then a synthetic move event in a browser, where `window.event` is a DOM event (it takes the move branch); a pointer move where no global `event` exists (it throws a ReferenceError) | test the event passed in the signal argument | medium, not executed | GestureAsWritten.BranchTestMisroutesAsWritten | GestureModel.BranchOf |
