/** The location selector: set_location clicks the location popover, fills in
    the zip code, confirms with Apply (or Enter) and dismisses the follow-up
    dialog with Continue (or Enter). Only its boolean result is modelled. */
module Locale {

  /** The outcome of one browser action (click, fill, key press, wait). */
  datatype Step = Done | Raised

  /** The oracle's answer for every action set_location may perform, in the
      order they are attempted. Each Enter press is only performed when the
      click before it raised. */
  datatype LocaleSteps = LocaleSteps(
    openPopover: Step,        // click on the location popover link
    fillZip: Step,            // fill of the zip input
    clickApply: Step,         // click on the Apply button
    enterAfterApply: Step,    // Enter pressed because Apply could not be clicked
    clickContinue: Step,      // click on the Continue button
    enterAfterContinue: Step, // Enter pressed because Continue could not be clicked
    settle: Step              // the final one-second wait
  )

  /** One statement of set_location's try block: an action that must succeed,
      or a click guarded by an inner bare except whose handler presses Enter. */
  datatype Action = Must(step: Step) | OrElse(primary: Step, fallback: Step)

  /** An OrElse raises only when its fallback raises too. */
  function Perform(a: Action): (s: Step)
    ensures s == Raised <==> (if a.Must? then a.step == Raised else a.primary == Raised && a.fallback == Raised)
  {
    match a
    case Must(only) => only
    case OrElse(click, enter) => if click.Done? then Done else enter
  }

  /** Runs actions in order inside one try block; the first one that raises
      ends the block and the handler returns false. */
  function RunBlock(actions: seq<Action>): (ok: bool)
    ensures ok <==> forall i :: 0 <= i < |actions| ==> Perform(actions[i]) == Done
  {
    if actions == [] then true
    else if Perform(actions[0]) == Raised then false
    else
      var rest := RunBlock(actions[1..]);
      assert forall i :: 1 <= i < |actions| ==> actions[i] == actions[1..][i - 1];
      rest
  }

  /** The statements of set_location's try block, in source order. */
  function Actions(steps: LocaleSteps): seq<Action> {
    [ Must(steps.openPopover),
      Must(steps.fillZip),
      OrElse(steps.clickApply, steps.enterAfterApply),
      OrElse(steps.clickContinue, steps.enterAfterContinue),
      Must(steps.settle) ]
  }

  /** set_location never raises: it is false exactly when the popover click,
      the fill, an Enter fallback or the final wait raised. A click on Apply
      or Continue that raises on its own only brings in its Enter fallback. */
  function SetLocation(steps: LocaleSteps): (ok: bool)
    ensures !ok <==>
      || steps.openPopover == Raised
      || steps.fillZip == Raised
      || (steps.clickApply == Raised && steps.enterAfterApply == Raised)
      || (steps.clickContinue == Raised && steps.enterAfterContinue == Raised)
      || steps.settle == Raised
  {
    var actions := Actions(steps);
    assert (forall i :: 0 <= i < |actions| ==> Perform(actions[i]) == Done) <==>
      Perform(actions[0]) == Done && Perform(actions[1]) == Done && Perform(actions[2]) == Done
      && Perform(actions[3]) == Done && Perform(actions[4]) == Done;
    RunBlock(actions)
  }
}
