/**
 * The remove-and-sort-usings task: runs the host's Edit.RemoveAndSort command on a C#
 * file, unless it has been switched off for the rest of the pass. It switches itself
 * off when the error detector reports compiler errors, or when the command was slow and
 * the user chose to skip it; Reset switches it on again for the next pass.
 */
module RemoveAndSortUsings {
  import opened CodeModel

  /**
   * What the host answers during one DoWork call: the detector's verdict, whether
   * SetFocus on the window throws (the command is then never executed), whether the
   * command itself throws, the command's duration, and the user's answer to the
   * slow-command question.
   */
  datatype Call = Call(
    itemName: string, errorsFound: bool, focusFails: bool, commandFails: bool,
    elapsedMilliseconds: nat, userSkips: bool)

  /** The slow-command threshold, in milliseconds. */
  const SlowCommandMilliseconds: nat := 1000

  /**
   * The command is executed: a C# item, the task not switched off, no errors reported by
   * a detector, and the window took the focus.
   */
  predicate IssuesCommand(disabled: bool, hasDetector: bool, c: Call)
  {
    EndsWith(c.itemName, ".cs") && !disabled && !(hasDetector && c.errorsFound) && !c.focusFails
  }

  /** IsTemporarilyDisabled after one DoWork call. */
  function DisabledAfter(disabled: bool, hasDetector: bool, c: Call): bool
  {
    if !EndsWith(c.itemName, ".cs") || disabled then disabled
    else if hasDetector && c.errorsFound then true
    else if c.focusFails || c.commandFails then false
    else c.elapsedMilliseconds > SlowCommandMilliseconds && c.userSkips
  }

  class RemoveAndSortUsingsTask {
    /** errorDetectionFunction != null */
    const hasErrorDetector: bool
    var isTemporarilyDisabled: bool

    constructor(errorDetector: bool)
      ensures hasErrorDetector == errorDetector && !isTemporarilyDisabled
    {
      hasErrorDetector := errorDetector;
      isTemporarilyDisabled := false;
    }

    /** Reset: the task is on again for the next pass. */
    method Reset()
      modifies this
      ensures !isTemporarilyDisabled
    {
      isTemporarilyDisabled := false;
    }

    /** DoWork: issued tells whether Edit.RemoveAndSort was executed (it may still have thrown). */
    method DoWork(c: Call) returns (issued: bool)
      modifies this
      ensures issued == IssuesCommand(old(isTemporarilyDisabled), hasErrorDetector, c)
      ensures isTemporarilyDisabled == DisabledAfter(old(isTemporarilyDisabled), hasErrorDetector, c)
    {
      issued := false;
      if EndsWith(c.itemName, ".cs") && !isTemporarilyDisabled {
        if hasErrorDetector {
          if c.errorsFound {
            isTemporarilyDisabled := true;
            return;
          }
        }
        if c.focusFails {
          return;
        }
        issued := true;
        if c.commandFails {
          return;
        }
        if c.elapsedMilliseconds > SlowCommandMilliseconds {
          if c.userSkips {
            isTemporarilyDisabled := true;
          }
        }
      }
    }
  }

  /** What happens to the task during a pass: DoWork calls, and the Reset that ends the pass. */
  datatype Event = Work(call: Call) | ResetTask

  /** The flag after a run of events. */
  function FlagAfter(disabled: bool, hasDetector: bool, events: seq<Event>): bool
    decreases |events|
  {
    if events == [] then disabled
    else
      var d := match events[0]
        case Work(c) => DisabledAfter(disabled, hasDetector, c)
        case ResetTask => false;
      FlagAfter(d, hasDetector, events[1..])
  }

  /** The number of times the command is issued during a run of events. */
  function CommandsIssued(disabled: bool, hasDetector: bool, events: seq<Event>): nat
    decreases |events|
  {
    if events == [] then 0
    else match events[0]
      case Work(c) =>
        (if IssuesCommand(disabled, hasDetector, c) then 1 else 0) +
        CommandsIssued(DisabledAfter(disabled, hasDetector, c), hasDetector, events[1..])
      case ResetTask => CommandsIssued(false, hasDetector, events[1..])
  }

  /**
   * Once the flag is set, DoWork calls do nothing: the command is never issued and the
   * flag stays set, until a Reset.
   */
  lemma {:induction false} DisabledUntilReset(hasDetector: bool, events: seq<Event>)
    requires forall k :: 0 <= k < |events| ==> events[k].Work?
    ensures FlagAfter(true, hasDetector, events) && CommandsIssued(true, hasDetector, events) == 0
  {
    if events != [] {
      assert forall k :: 0 <= k < |events[1..]| ==> events[1..][k] == events[k + 1];
      DisabledUntilReset(hasDetector, events[1..]);
    }
  }

  /** After a Reset the task is on again, whatever happened before in the pass. */
  lemma {:induction false} ResetEndsThePass(disabled: bool, hasDetector: bool, events: seq<Event>)
    ensures FlagAfter(disabled, hasDetector, events + [ResetTask]) == false
    decreases |events|
  {
    if events != [] {
      var d := match events[0]
        case Work(c) => DisabledAfter(disabled, hasDetector, c)
        case ResetTask => false;
      assert (events + [ResetTask])[1..] == events[1..] + [ResetTask];
      ResetEndsThePass(d, hasDetector, events[1..]);
    }
  }

  /**
   * An enabled task on a C# item switches itself off exactly when a detector reports
   * errors, or when the command was executed without failing, took more than 1000 ms, and
   * the user chose to skip it.
   */
  lemma DisabledIff(hasDetector: bool, c: Call)
    requires EndsWith(c.itemName, ".cs")
    ensures DisabledAfter(false, hasDetector, c) <==>
      (hasDetector && c.errorsFound) ||
      (IssuesCommand(false, hasDetector, c) && !c.commandFails && c.elapsedMilliseconds > 1000 && c.userSkips)
  {
  }

  /**
   * Without a detector, reported errors change nothing: the command is executed on every
   * enabled C# item whose window takes the focus.
   */
  lemma NoDetectorIgnoresErrors(disabled: bool, c: Call)
    ensures IssuesCommand(disabled, false, c) <==> EndsWith(c.itemName, ".cs") && !disabled && !c.focusFails
    ensures DisabledAfter(disabled, false, c) == DisabledAfter(disabled, false, c.(errorsFound := !c.errorsFound))
  {
  }

  /**
   * When SetFocus throws, the command is never executed and the flag stays as it was:
   * the exception is caught before the slow-command question.
   */
  lemma FocusFailureSkipsCommand(disabled: bool, hasDetector: bool, c: Call)
    requires c.focusFails
    ensures !IssuesCommand(disabled, hasDetector, c)
    ensures DisabledAfter(disabled, hasDetector, c) == (disabled || (EndsWith(c.itemName, ".cs") && hasDetector && c.errorsFound))
  {
  }

  /** A non-C# item changes nothing. */
  lemma OtherItemsUntouched(disabled: bool, hasDetector: bool, c: Call)
    requires !EndsWith(c.itemName, ".cs")
    ensures !IssuesCommand(disabled, hasDetector, c) && DisabledAfter(disabled, hasDetector, c) == disabled
  {
  }
}
