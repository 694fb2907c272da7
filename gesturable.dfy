/**
  `Interactable.prototype.gesturable`: reads or sets whether an element
  accepts gestures, and the gesture action's default options.
 */
module Gesturable {
  import opened JsNumber
  import opened GestureModel

  /** The argument of `gesturable`, by the two type tests the method makes. */
  datatype GesturableArg =
    | ObjectArg(enabled: Option<bool>)  // an object; `enabled` is its boolean `enabled` property, None when absent or not boolean
    | BooleanArg(value: bool)
    | OtherArg                          // undefined, null, a number, a string, a function

  /** The element's `options.gesture` object, which holds the gesture action's per-action options. */
  class GestureOptions {
    var enabled: bool
    var manualStart: bool
    var max: Num
    var maxPerElement: Num
    var restrict: Option<string>

    /** The gesture action's defaults: disabled, started automatically, unbounded, one per element, unrestricted. */
    constructor Defaults()
      ensures !enabled && !manualStart && max == PosInf && maxPerElement == Finite(1.0) && restrict == None
    {
      enabled, manualStart := false, false;
      max, maxPerElement, restrict := PosInf, Finite(1.0), None;
    }
  }

  /** What `gesturable` returns: the interactable itself (setter, for chaining) or its gesture options (getter). */
  datatype GesturableResult = ReturnsThis | ReturnsOptions(options: GestureOptions)

  /**
    The `enabled` flag after `gesturable(arg)`: an object enables gestures
    unless its `enabled` is exactly `false`; a boolean is taken as the flag;
    anything else leaves the flag as it was.
   */
  function EnabledAfter(arg: GesturableArg, current: bool): (r: bool)
    ensures arg.ObjectArg? ==> (r <==> arg.enabled != Some(false))
    ensures arg.BooleanArg? ==> r == arg.value
    ensures arg.OtherArg? ==> r == current
  {
    match arg
    case ObjectArg(e) => if e == Some(false) then false else true
    case BooleanArg(b) => b
    case OtherArg => current
  }

  class Interactable {
    var options: GestureOptions

    constructor (options: GestureOptions)
      ensures this.options == options
    {
      this.options := options;
    }

    /**
      `gesturable(arg)`: with an object or a boolean, sets the flag and returns
      the interactable; with anything else, returns the gesture options
      object unchanged.
     */
    method Gesturable(arg: GesturableArg) returns (r: GesturableResult)
      modifies options
      ensures options == old(options)
      ensures options.enabled == EnabledAfter(arg, old(options.enabled))
      ensures !arg.ObjectArg? ==>
                && options.manualStart == old(options.manualStart) && options.max == old(options.max)
                && options.maxPerElement == old(options.maxPerElement) && options.restrict == old(options.restrict)
      ensures arg.OtherArg? <==> r == ReturnsOptions(options)
      ensures !arg.OtherArg? <==> r == ReturnsThis
    {
      if arg.ObjectArg? {
        options.enabled := if arg.enabled == Some(false) then false else true;
        return ReturnsThis;
      }
      if arg.BooleanArg? {
        options.enabled := arg.value;
        return ReturnsThis;
      }
      return ReturnsOptions(options);
    }
  }

  /** The flag after calling `gesturable` with each argument in turn. */
  function EnabledAfterCalls(args: seq<GesturableArg>, initial: bool): bool
    decreases |args|
  {
    if args == [] then initial
    else EnabledAfter(args[|args| - 1], EnabledAfterCalls(args[..|args| - 1], initial))
  }

  /** The last argument that sets the flag (an object or a boolean), if any. */
  function LastSetter(args: seq<GesturableArg>): (r: Option<GesturableArg>)
    ensures r.Some? ==> !r.value.OtherArg?
    decreases |args|
  {
    if args == [] then None
    else if !args[|args| - 1].OtherArg? then Some(args[|args| - 1])
    else LastSetter(args[..|args| - 1])
  }

  /**
    Getter calls never change the flag and a setter call overrides whatever
    came before: after any sequence of calls the flag is the one the last
    setter chose, or the initial flag when there was none.
   */
  lemma {:induction false} FlagFollowsLastSetter(args: seq<GesturableArg>, initial: bool)
    ensures EnabledAfterCalls(args, initial) ==
              match LastSetter(args)
              case None => initial
              case Some(a) => EnabledAfter(a, initial)
    decreases |args|
  {
    if args != [] && args[|args| - 1].OtherArg? {
      FlagFollowsLastSetter(args[..|args| - 1], initial);
    }
  }
}
