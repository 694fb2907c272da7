/**
  Two lines of the delta handler that do not do what the surrounding code
  evidently means, modelled as written, next to the intended behaviour that
  GestureModel and GestureEngine use.
 */
module GestureAsWritten {
  import opened GestureModel

  datatype JsError = TypeError | ReferenceError

  /** How a call ends: normally, or with a thrown error. */
  datatype Completion = Normal | Thrown(error: JsError)

  /** The names the handler destructures from its argument, in order. */
  const HandlerNames: seq<string> := ["interaction", "iEvent", "starting", "ending", "deltaSource"]

  /** The properties of the signal argument the handler is called with. */
  const SignalArgKeys: set<string> := {"interaction", "iEvent", "action", "starting", "ending", "event", "deltaSource"}

  /** The object literal `{arg}` is shorthand for `{arg: arg}`: its only property is `arg`. */
  const ShorthandKeys: set<string> := {"arg"}

  /** The destructured names that come out undefined: those the object has no property for. */
  function UndefinedNames(keys: set<string>): (missing: set<string>)
    ensures forall n :: n in missing <==> n in HandlerNames && n !in keys
  {
    set n | n in HandlerNames && n !in keys
  }

  /**
    How the handler ends when it destructures from an object with the given
    properties, `free` being what the free identifier `event` denotes: with
    `interaction` undefined, reading `interaction.pointers` throws a
    TypeError; with `iEvent` undefined, writing `iEvent.touches` does. Past
    those, an event that is neither starting nor ending (an undefined flag is
    false) reaches the test `event instanceof InteractEvent`, which throws a
    ReferenceError when no global `event` exists.
   */
  function HandlerCompletion(arg: DeltaArg, keys: set<string>, free: FreeEvent): (c: Completion)
    ensures arg.action != "gesture" ==> c == Normal
    ensures arg.action == "gesture" ==>
              (c == Thrown(TypeError) <==> "interaction" !in keys || "iEvent" !in keys)
    ensures arg.action == "gesture" ==>
              (c == Thrown(ReferenceError) <==>
                 && "interaction" in keys && "iEvent" in keys
                 && !("starting" in keys && arg.starting) && !("ending" in keys && arg.ending)
                 && free == Unbound)
  {
    if arg.action != "gesture" then Normal
    else if "interaction" !in keys || "iEvent" !in keys then Thrown(TypeError)
    else if "starting" in keys && arg.starting then Normal
    else if "ending" in keys && arg.ending then Normal
    else if free == Unbound then Thrown(ReferenceError)
    else Normal
  }

  /**
    As written, the handler destructures from `{arg}`: every name it binds is
    undefined, and every gesture event makes it throw before it writes a
    field. Destructuring from the argument itself binds them all; the handler
    then throws only where the branch test of line 141 does.
   */
  lemma HandlerThrowsAsWritten(arg: DeltaArg, free: FreeEvent)
    requires arg.action == "gesture"
    ensures UndefinedNames(ShorthandKeys) == set n | n in HandlerNames
    ensures HandlerCompletion(arg, ShorthandKeys, free) == Thrown(TypeError)
    ensures UndefinedNames(SignalArgKeys) == {}
    ensures HandlerCompletion(arg, SignalArgKeys, free) != Thrown(TypeError)
    ensures HandlerCompletion(arg, SignalArgKeys, free) == Thrown(ReferenceError) <==>
              BranchAsWritten(arg, free) == Failed(ReferenceError)
  {
    assert forall n :: n in HandlerNames ==> n !in ShorthandKeys;
    assert forall n :: n in HandlerNames ==> n in SignalArgKeys;
  }

  /**
    What the free identifier `event` in the handler's second test denotes:
    nothing (reading it throws a ReferenceError), or a host global such as a
    browser's `window.event`, the DOM event being handled.
   */
  datatype FreeEvent = Unbound | HostGlobal(isInteractEvent: bool)

  datatype BranchChoice = Chosen(branch: Branch) | Failed(error: JsError)

  /** The handler's branch test as written: `starting`, then `ending || event instanceof InteractEvent`. */
  function BranchAsWritten(arg: DeltaArg, free: FreeEvent): (r: BranchChoice)
    ensures arg.starting || arg.ending ==> r == Chosen(BranchOf(arg))
    ensures !arg.starting && !arg.ending ==>
              (r == Failed(ReferenceError) <==> free == Unbound)
  {
    if arg.starting then Chosen(Fresh)
    else if arg.ending then Chosen(Frozen)
    else match free
      case Unbound => Failed(ReferenceError)
      case HostGlobal(isInteractEvent) => Chosen(if isInteractEvent then Frozen else Incremental)
  }

  /**
    As written, the test ignores the event the InteractEvent is built from: in
    a browser, where `window.event` is a DOM event, a synthetic move event is
    measured afresh instead of repeating the previous geometry; where no
    global `event` exists, every move event throws. The intended test,
    `BranchOf`, reads the event from the argument.
   */
  lemma BranchTestMisroutesAsWritten(src: DeltaSource)
    ensures var synthetic := DeltaArg("gesture", false, false, InteractEventInput, src);
            && BranchAsWritten(synthetic, HostGlobal(false)) == Chosen(Incremental)
            && BranchOf(synthetic) == Frozen
    ensures var move := DeltaArg("gesture", false, false, PointerInput, src);
            && BranchAsWritten(move, Unbound) == Failed(ReferenceError)
            && BranchOf(move) == Incremental
  {
  }
}
