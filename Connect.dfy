/**
 * The add-in object: the three task lists, the command handlers QueryStatus and Exec,
 * and the pass over project items that runs the style tasks. What the tasks do to a
 * file is not modelled here; a pass is described by the host calls it makes (its
 * effects), and by the one piece of task state that lives across items, the
 * RemoveAndSortUsings task's IsTemporarilyDisabled flag.
 */
module Connect {
  import opened CodeModel
  import opened RemoveAndSortUsings
  import StyleTaskBase

  /** The registered style tasks. */
  datatype TaskId =
    | MoveUsingsTask | RemoveAndSortUsingsTask | SortElementsWithinClassTask | FormatDocumentTask
    | RemoveMultipleBlankLinesTask | BlockSpacingTask | AddAccessModifiersTask | RunGhostDocTask
    | CommentSpacingTask | AddCopyrightTask | RunStyleCopTask | RunStyleCopRescanAllTask

  /** Each task's TaskName, as its constructor sets it. */
  function TaskName(t: TaskId): string
  {
    match t
    case MoveUsingsTask => "Move Usings"
    case RemoveAndSortUsingsTask => "Remove and Sort Usings"
    case SortElementsWithinClassTask => "Sort Elements Within a Class"
    case FormatDocumentTask => "Format Document"
    case RemoveMultipleBlankLinesTask => "Remove Multiple Blank Lines"
    case BlockSpacingTask => "Correct Block Spacing"
    case AddAccessModifiersTask => "Add Missing Access Modifiers"
    case RunGhostDocTask => "Run GhostDoc"
    case CommentSpacingTask => "Format Comment Spacing"
    case AddCopyrightTask => "Add Copyright"
    case RunStyleCopTask => "Run StyleCop"
    case RunStyleCopRescanAllTask => "Run StyleCop (Rescan All)"
  }

  const CommonTasks: seq<TaskId> := [
    MoveUsingsTask, RemoveAndSortUsingsTask, SortElementsWithinClassTask, FormatDocumentTask,
    RemoveMultipleBlankLinesTask, BlockSpacingTask, AddAccessModifiersTask, RunGhostDocTask,
    CommentSpacingTask, AddCopyrightTask]
  const PostSingleTasks: seq<TaskId> := [RunStyleCopTask]
  const PostSolutionTasks: seq<TaskId> := [RunStyleCopRescanAllTask]

  /** vsBuildErrorLevel */
  datatype ErrorLevel = Low | Medium | High

  /** The error list holds a compiler error. */
  predicate HasCompilerError(errorItems: seq<ErrorLevel>)
  {
    exists k :: 0 <= k < |errorItems| && errorItems[k] == High
  }

  /**
   * A project item, with the host's answers for it:
   *  - wasOpen: get_IsOpen before the tasks; savedAfter: Saved after them;
   *  - throwing: the tasks whose PerformStyleTask throws on this item (the
   *    RemoveAndSortUsings task catches its own exceptions, so it is never counted);
   *  - errorItems, focusFails, commandFails, elapsedMilliseconds, userSkips: what the
   *    RemoveAndSortUsings task meets on this item;
   *  - children: ProjectItems (a null collection is the empty one).
   */
  datatype Item = Item(
    name: string, wasOpen: bool, savedAfter: bool, throwing: set<TaskId>,
    errorItems: seq<ErrorLevel>, focusFails: bool, commandFails: bool, elapsedMilliseconds: nat, userSkips: bool,
    children: seq<Item>)

  /** A project; no items covers both a null ProjectItems and an empty one. */
  datatype Project = Project(name: string, items: seq<Item>)

  /** The lines Sweeper writes to its output window. */
  datatype Message =
    | Starting | Complete | NoProjects | NoActiveDocument | NotAProjectItem | PostSolution
    | SkippingProject(project: string) | WorkingOn(file: string)
    | Running(task: TaskId) | NotRunning(task: TaskId)

  /** The text of each line. */
  function Text(m: Message): string
  {
    match m
    case Starting => "-= Starting Sweeper =-"
    case Complete => "-= Sweeper Complete =-"
    case NoProjects => "! Not Running - No Projects in solution !"
    case NoActiveDocument => "! Not Running - No Active Document !"
    case NotAProjectItem => "! Not Running - Active Document isn't a valid project item !"
    case PostSolution => NewLine + "-- Post: Running Solution Tasks --"
    case SkippingProject(project) => "! Skipping Project: " + project + " - No Items in project. !"
    case WorkingOn(file) => NewLine + "-- Working on File: " + file + "--"
    case Running(t) => "Running: " + TaskName(t)
    case NotRunning(t) => "Not Running: " + TaskName(t) + " -- Disabled"
  }

  /** The host calls a pass makes, in order. */
  datatype Effect =
    | ClearOutput                         // ClearOutputWindow
    | Line(msg: Message)                  // WriteLineToOutputWindow
    | OpenAndActivate(item: string)       // the item opened in a code window and activated
    | ActivateActiveWindow                // the active window activated for the solution tasks
    | Perform(task: TaskId, item: string) // PerformStyleTask on an item
    | RemoveAndSortCommand(item: string)  // Edit.RemoveAndSort issued by its task
    | CloseWindow(item: string)           // the window closed again
    | PerformSolution(task: TaskId)       // PerformStyleTask of a solution task
    | ResetCall(task: TaskId)             // Reset
    | ShowOptions(tasks: seq<TaskId>)     // the option window over these tasks

  /** The items the style tasks take: C# files other than designer files. */
  predicate IsStyledFile(name: string)
  {
    EndsWith(name, ".cs") && !EndsWith(name, "Designer.cs")
  }

  /** The RemoveAndSortUsings task's view of an item; its detector is IsCompilerErrorInErrorList. */
  function RemoveAndSortCall(item: Item): Call
  {
    Call(item.name, HasCompilerError(item.errorItems), item.focusFails, item.commandFails, item.elapsedMilliseconds, item.userSkips)
  }

  // ---------------------------------------------------------------------------
  // RunProjectItemStyleTasks

  /** The task loop's state: effects so far, the RemoveAndSortUsings flag, and whether an exception ended it. */
  datatype Loop = Loop(effects: seq<Effect>, disabled: bool, stopped: bool)

  /**
   * DoWork of a task on an item, as a change of the loop's state: the RemoveAndSortUsings
   * task issues its command and updates its flag; any other task may throw.
   */
  function TaskWork(t: TaskId, item: Item, s: Loop): Loop
  {
    if t == RemoveAndSortUsingsTask then
      var c := RemoveAndSortCall(item);
      var issued := if IssuesCommand(s.disabled, true, c) then [RemoveAndSortCommand(item.name)] else [];
      Loop(s.effects + issued, DisabledAfter(s.disabled, true, c), false)
    else Loop(s.effects, s.disabled, t in item.throwing)
  }

  /**
   * One turn of the task loop: the log line, then PerformStyleTask, which tests
   * IsEnabled once more and runs the task's work.
   */
  function TaskStep(t: TaskId, enabled: set<TaskId>, item: Item, disabled: bool): Loop
  {
    if t !in enabled then Loop([Line(NotRunning(t))], disabled, false)
    else
      StyleTaskBase.PerformStyleTask(t in enabled, (s: Loop) => TaskWork(t, item, s),
        Loop([Line(Running(t)), Perform(t, item.name)], disabled, false))
  }

  /** The task loop over the first n tasks; an exception ends it. */
  function TaskLoop(tasks: seq<TaskId>, enabled: set<TaskId>, item: Item, disabled: bool, n: nat): Loop
    requires n <= |tasks|
  {
    if n == 0 then Loop([], disabled, false)
    else
      var before := TaskLoop(tasks, enabled, item, disabled, n - 1);
      if before.stopped then before
      else
        var s := TaskStep(tasks[n - 1], enabled, item, before.disabled);
        Loop(before.effects + s.effects, s.disabled, s.stopped)
  }

  datatype Run = Run(effects: seq<Effect>, disabled: bool)

  /** What the item itself gets: nothing unless it is a styled file. */
  function RunOwn(tasks: seq<TaskId>, enabled: set<TaskId>, item: Item, disabled: bool): Run
  {
    if IsStyledFile(item.name) then
      var loop := TaskLoop(tasks, enabled, item, disabled, |tasks|);
      var close := if !item.wasOpen && item.savedAfter then [CloseWindow(item.name)] else [];
      Run([OpenAndActivate(item.name), Line(WorkingOn(item.name))] + loop.effects + close,
          loop.disabled)
    else Run([], disabled)
  }

  /** RunProjectItemStyleTasks: the item, then its children, recursively. */
  function RunItem(tasks: seq<TaskId>, enabled: set<TaskId>, item: Item, disabled: bool): Run
    decreases item, 1
  {
    var own := RunOwn(tasks, enabled, item, disabled);
    var below := RunItems(tasks, enabled, item.children, own.disabled, |item.children|);
    Run(own.effects + below.effects, below.disabled)
  }

  /** The first n items of a collection, one after the other. */
  function RunItems(tasks: seq<TaskId>, enabled: set<TaskId>, items: seq<Item>, disabled: bool, n: nat): Run
    requires n <= |items|
    decreases items, 0, n
  {
    if n == 0 then Run([], disabled)
    else
      var before := RunItems(tasks, enabled, items, disabled, n - 1);
      var r := RunItem(tasks, enabled, items[n - 1], before.disabled);
      Run(before.effects + r.effects, r.disabled)
  }

  // ---------------------------------------------------------------------------
  // RunSolutionStyleTasks and ResetTasks

  datatype Steps = Steps(effects: seq<Effect>, stopped: bool)

  function SolutionLoop(tasks: seq<TaskId>, enabled: set<TaskId>, throwing: set<TaskId>, n: nat): Steps
    requires n <= |tasks|
  {
    if n == 0 then Steps([], false)
    else
      var before := SolutionLoop(tasks, enabled, throwing, n - 1);
      var t := tasks[n - 1];
      if before.stopped then before
      else if t !in enabled then Steps(before.effects + [Line(NotRunning(t))], false)
      else Steps(before.effects + [Line(Running(t)), PerformSolution(t)], t in throwing)
  }

  function RunSolution(tasks: seq<TaskId>, enabled: set<TaskId>, throwing: set<TaskId>): seq<Effect>
  {
    [ActivateActiveWindow, Line(PostSolution)] +
    SolutionLoop(tasks, enabled, throwing, |tasks|).effects
  }

  /** ResetTasks: Reset on every task of the list, in order. */
  function Resets(tasks: seq<TaskId>): seq<Effect>
  {
    if tasks == [] then [] else Resets(tasks[..|tasks| - 1]) + [ResetCall(tasks[|tasks| - 1])]
  }

  /** The RemoveAndSortUsings flag after ResetTasks: cleared when that task is in the list. */
  function FlagAfterResets(tasks: seq<TaskId>, disabled: bool): bool
  {
    if RemoveAndSortUsingsTask in tasks then false else disabled
  }

  // ---------------------------------------------------------------------------
  // QueryStatus and Exec

  const SweeperAllCommand: string := "Sweeper.Connect.SweeperAll"
  const SweeperCommand: string := "Sweeper.Connect.Sweeper"
  const SweeperOptionsCommand: string := "Sweeper.Connect.SweeperOptions"

  /** vsCommandStatusSupported | vsCommandStatusEnabled */
  const SupportedAndEnabled: nat := 3

  /** QueryStatus: the status left in the ref parameter. */
  function QueryStatus(commandName: string, textWantedNone: bool, status: nat): nat
  {
    if textWantedNone &&
       (commandName == SweeperAllCommand || commandName == SweeperCommand || commandName == SweeperOptionsCommand)
    then SupportedAndEnabled
    else status
  }

  /** The revision of Exec: as written, or with the reopen guarded against a missing item. */
  datatype Revision = AsWritten | Corrected

  /**
   * What the host shows when a command is executed:
   *  - activeWindowItem: the active window's project item (null when None);
   *  - activeDocument: None for no active document, Some(None) for a document that is not
   *    a project item;
   *  - enabled: the tasks whose IsEnabled setting is on;
   *  - solutionThrowing: the solution tasks that throw.
   */
  datatype Host = Host(
    activeWindowItem: Option<string>, projects: seq<Project>, activeDocument: Option<Option<Item>>,
    enabled: set<TaskId>, solutionThrowing: set<TaskId>)

  /** faulted: a NullReferenceException leaves Exec, so handled is never set. */
  datatype Outcome = Outcome(effects: seq<Effect>, disabled: bool, handled: bool, faulted: bool)

  /** SweeperAll's loop over the first n projects. */
  function ProjectsLoop(enabled: set<TaskId>, projects: seq<Project>, disabled: bool, n: nat): Run
    requires n <= |projects|
  {
    if n == 0 then Run([], disabled)
    else
      var before := ProjectsLoop(enabled, projects, disabled, n - 1);
      var p := projects[n - 1];
      if |p.items| > 0 then
        var r := RunItems(CommonTasks, enabled, p.items, before.disabled, |p.items|);
        Run(before.effects + r.effects, r.disabled)
      else Run(before.effects + [Line(SkippingProject(p.name))], before.disabled)
  }

  function SweeperAll(host: Host, disabled: bool): Outcome
  {
    var body :=
      if |host.projects| > 0 then
        var r := ProjectsLoop(host.enabled, host.projects, disabled, |host.projects|);
        Run(r.effects + RunSolution(PostSolutionTasks, host.enabled, host.solutionThrowing) +
            Resets(CommonTasks) + Resets(PostSolutionTasks),
            FlagAfterResets(PostSolutionTasks, FlagAfterResets(CommonTasks, r.disabled)))
      else Run([Line(NoProjects)], disabled);
    var reopen := if host.activeWindowItem.Some? then [OpenAndActivate(host.activeWindowItem.value)] else [];
    Outcome([ClearOutput, Line(Starting)] + body.effects + [Line(Complete)] + reopen,
            body.disabled, true, false)
  }

  function SweeperOne(rev: Revision, host: Host, disabled: bool): Outcome
  {
    var body :=
      match host.activeDocument
      case None => Run([Line(NoActiveDocument)], disabled)
      case Some(None) => Run([Line(NotAProjectItem)], disabled)
      case Some(Some(p)) =>
        var a := RunItem(CommonTasks, host.enabled, p, disabled);
        var b := RunItem(PostSingleTasks, host.enabled, p, FlagAfterResets(CommonTasks, a.disabled));
        Run(a.effects + Resets(CommonTasks) + b.effects + Resets(PostSingleTasks),
            FlagAfterResets(PostSingleTasks, b.disabled));
    var effects := [ClearOutput, Line(Starting)] + body.effects + [Line(Complete)];
    match host.activeDocument
    case Some(Some(p)) => Outcome(effects + [OpenAndActivate(p.name)], body.disabled, true, false)
    case _ => if rev == AsWritten then Outcome(effects, body.disabled, false, true) else Outcome(effects, body.disabled, true, false)
  }

  function SweeperOptions(rev: Revision, host: Host, disabled: bool): Outcome
  {
    var effects := [ShowOptions(CommonTasks + PostSingleTasks + PostSolutionTasks)];
    if host.activeWindowItem.Some? then
      Outcome(effects + [OpenAndActivate(host.activeWindowItem.value)], disabled, true, false)
    else if rev == AsWritten then Outcome(effects, disabled, false, true)
    else Outcome(effects, disabled, true, false)
  }

  /** Exec: doDefault is executeOption == vsCommandExecOptionDoDefault. */
  function ExecOutcome(rev: Revision, commandName: string, doDefault: bool, host: Host, disabled: bool): Outcome
  {
    if !doDefault then Outcome([], disabled, false, false)
    else if commandName == SweeperAllCommand then SweeperAll(host, disabled)
    else if commandName == SweeperCommand then SweeperOne(rev, host, disabled)
    else if commandName == SweeperOptionsCommand then SweeperOptions(rev, host, disabled)
    else Outcome([], disabled, false, false)
  }

  // ---------------------------------------------------------------------------
  // The add-in object

  class AddIn {
    var commonTasks: seq<TaskId>
    var postSingleTasks: seq<TaskId>
    var postSolutionTasks: seq<TaskId>
    /** The RemoveAndSortUsings task object of commonTasks, with IsCompilerErrorInErrorList as its detector. */
    const removeAndSortUsings: RemoveAndSortUsingsTask

    predicate Valid()
      reads this
    {
      commonTasks == CommonTasks && postSingleTasks == PostSingleTasks &&
      postSolutionTasks == PostSolutionTasks && removeAndSortUsings.hasErrorDetector
    }

    /** The constructor fills the task lists in their fixed order. */
    constructor()
      ensures Valid() && fresh(removeAndSortUsings) && !removeAndSortUsings.isTemporarilyDisabled
    {
      var common: seq<TaskId> := [];
      common := common + [MoveUsingsTask];
      common := common + [RemoveAndSortUsingsTask];
      common := common + [SortElementsWithinClassTask];
      common := common + [FormatDocumentTask];
      common := common + [RemoveMultipleBlankLinesTask];
      common := common + [BlockSpacingTask];
      common := common + [AddAccessModifiersTask];
      common := common + [RunGhostDocTask];
      common := common + [CommentSpacingTask];
      common := common + [AddCopyrightTask];
      commonTasks := common;
      postSingleTasks := [RunStyleCopTask];
      postSolutionTasks := [RunStyleCopRescanAllTask];
      removeAndSortUsings := new RemoveAndSortUsingsTask(true);
    }

    /** IsCompilerErrorInErrorList: scans the error list for an item of level High. */
    method IsCompilerErrorInErrorList(errorItems: seq<ErrorLevel>) returns (found: bool)
      ensures found <==> HasCompilerError(errorItems)
    {
      var i := 1;
      while i <= |errorItems|
        invariant 1 <= i <= |errorItems| + 1
        invariant forall k :: 0 <= k < i - 1 ==> errorItems[k] != High
      {
        if errorItems[i - 1] == High {
          return true;
        }
        i := i + 1;
      }
      return false;
    }

    /** RunProjectItemStyleTasks: the task loop on a styled item, then the children. */
    method RunProjectItemStyleTasks(styleTasks: seq<TaskId>, enabled: set<TaskId>, projectItem: Item)
      returns (effects: seq<Effect>)
      requires Valid()
      modifies removeAndSortUsings
      ensures effects == RunItem(styleTasks, enabled, projectItem, old(removeAndSortUsings.isTemporarilyDisabled)).effects
      ensures removeAndSortUsings.isTemporarilyDisabled ==
        RunItem(styleTasks, enabled, projectItem, old(removeAndSortUsings.isTemporarilyDisabled)).disabled
      decreases projectItem, 1
    {
      effects := [];
      if IsStyledFile(projectItem.name) {
        var taskEffects := RunTasks(styleTasks, enabled, projectItem);
        var close := if !projectItem.wasOpen && projectItem.savedAfter then [CloseWindow(projectItem.name)] else [];
        effects := [OpenAndActivate(projectItem.name), Line(WorkingOn(projectItem.name))] +
          taskEffects + close;
      }
      var childEffects := RunEachItem(styleTasks, enabled, projectItem.children);
      effects := effects + childEffects;
    }

    /** The loop over the style tasks on one item; an exception ends it. */
    method RunTasks(styleTasks: seq<TaskId>, enabled: set<TaskId>, projectItem: Item)
      returns (effects: seq<Effect>)
      requires Valid()
      modifies removeAndSortUsings
      ensures effects == TaskLoop(styleTasks, enabled, projectItem, old(removeAndSortUsings.isTemporarilyDisabled), |styleTasks|).effects
      ensures removeAndSortUsings.isTemporarilyDisabled ==
        TaskLoop(styleTasks, enabled, projectItem, old(removeAndSortUsings.isTemporarilyDisabled), |styleTasks|).disabled
    {
      ghost var d0 := removeAndSortUsings.isTemporarilyDisabled;
      effects := [];
      var i := 0;
      while i < |styleTasks|
        invariant 0 <= i <= |styleTasks|
        invariant TaskLoop(styleTasks, enabled, projectItem, d0, i) ==
          Loop(effects, removeAndSortUsings.isTemporarilyDisabled, false)
      {
        ghost var before := TaskLoop(styleTasks, enabled, projectItem, d0, i);
        var stepEffects, stopped := RunTask(styleTasks[i], enabled, projectItem);
        effects := effects + stepEffects;
        assert TaskLoop(styleTasks, enabled, projectItem, d0, i + 1) ==
          Loop(effects, removeAndSortUsings.isTemporarilyDisabled, stopped) by {
          assert TaskLoop(styleTasks, enabled, projectItem, d0, i + 1) ==
            var s := TaskStep(styleTasks[i], enabled, projectItem, before.disabled);
            Loop(before.effects + s.effects, s.disabled, s.stopped);
        }
        if stopped {
          TaskLoopStopSticks(styleTasks, enabled, projectItem, d0, i + 1, |styleTasks|);
          return;
        }
        i := i + 1;
      }
    }

    /** One turn of the task loop: the log line, and PerformStyleTask when the task is enabled. */
    method RunTask(t: TaskId, enabled: set<TaskId>, projectItem: Item) returns (effects: seq<Effect>, stopped: bool)
      requires Valid()
      modifies removeAndSortUsings
      ensures TaskStep(t, enabled, projectItem, old(removeAndSortUsings.isTemporarilyDisabled)) ==
        Loop(effects, removeAndSortUsings.isTemporarilyDisabled, stopped)
    {
      stopped := false;
      if t in enabled {
        effects := [Line(Running(t)), Perform(t, projectItem.name)];
        if t == RemoveAndSortUsingsTask {
          var errors := IsCompilerErrorInErrorList(projectItem.errorItems);
          var issued := removeAndSortUsings.DoWork(
            Call(projectItem.name, errors, projectItem.focusFails, projectItem.commandFails,
              projectItem.elapsedMilliseconds, projectItem.userSkips));
          if issued {
            effects := effects + [RemoveAndSortCommand(projectItem.name)];
          }
        } else {
          stopped := t in projectItem.throwing;
        }
      } else {
        effects := [Line(NotRunning(t))];
      }
    }

    /** A foreach over a collection of project items, each handed to RunProjectItemStyleTasks. */
    method RunEachItem(styleTasks: seq<TaskId>, enabled: set<TaskId>, items: seq<Item>)
      returns (effects: seq<Effect>)
      requires Valid()
      modifies removeAndSortUsings
      ensures effects == RunItems(styleTasks, enabled, items, old(removeAndSortUsings.isTemporarilyDisabled), |items|).effects
      ensures removeAndSortUsings.isTemporarilyDisabled ==
        RunItems(styleTasks, enabled, items, old(removeAndSortUsings.isTemporarilyDisabled), |items|).disabled
      decreases items, 0
    {
      ghost var d0 := removeAndSortUsings.isTemporarilyDisabled;
      effects := [];
      var j := 0;
      while j < |items|
        invariant 0 <= j <= |items|
        invariant RunItems(styleTasks, enabled, items, d0, j) == Run(effects, removeAndSortUsings.isTemporarilyDisabled)
      {
        var r := RunProjectItemStyleTasks(styleTasks, enabled, items[j]);
        effects := effects + r;
        j := j + 1;
      }
    }

    /** RunSolutionStyleTasks: the solution tasks' loop; an exception ends it. */
    method RunSolutionStyleTasks(styleTasks: seq<TaskId>, enabled: set<TaskId>, throwing: set<TaskId>)
      returns (effects: seq<Effect>)
      ensures effects == RunSolution(styleTasks, enabled, throwing)
    {
      var loopEffects: seq<Effect> := [];
      var i := 0;
      while i < |styleTasks|
        invariant 0 <= i <= |styleTasks|
        invariant SolutionLoop(styleTasks, enabled, throwing, i) == Steps(loopEffects, false)
      {
        var t := styleTasks[i];
        if t in enabled {
          loopEffects := loopEffects + [Line(Running(t)), PerformSolution(t)];
          if t in throwing {
            SolutionStopSticks(styleTasks, enabled, throwing, i + 1, |styleTasks|);
            break;
          }
        } else {
          loopEffects := loopEffects + [Line(NotRunning(t))];
        }
        i := i + 1;
      }
      effects := [ActivateActiveWindow, Line(PostSolution)] + loopEffects;
    }

    /** ResetTasks: Reset on every task of the list. */
    method ResetTasks(styleTasks: seq<TaskId>) returns (effects: seq<Effect>)
      requires Valid()
      modifies removeAndSortUsings
      ensures effects == Resets(styleTasks)
      ensures removeAndSortUsings.isTemporarilyDisabled ==
        FlagAfterResets(styleTasks, old(removeAndSortUsings.isTemporarilyDisabled))
    {
      effects := [];
      var i := 0;
      while i < |styleTasks|
        invariant 0 <= i <= |styleTasks|
        invariant effects == Resets(styleTasks[..i])
        invariant removeAndSortUsings.isTemporarilyDisabled ==
          FlagAfterResets(styleTasks[..i], old(removeAndSortUsings.isTemporarilyDisabled))
      {
        assert styleTasks[..i + 1][..i] == styleTasks[..i];
        if styleTasks[i] == RemoveAndSortUsingsTask {
          removeAndSortUsings.Reset();
        }
        effects := effects + [ResetCall(styleTasks[i])];
        i := i + 1;
      }
      assert styleTasks[..i] == styleTasks;
    }

    /** The option window's list: the common, post-single and post-solution tasks, in order. */
    method TaskOptions() returns (taskOptions: seq<TaskId>)
      requires Valid()
      ensures taskOptions == CommonTasks + PostSingleTasks + PostSolutionTasks
    {
      taskOptions := [];
      for i := 0 to |commonTasks|
        invariant taskOptions == commonTasks[..i]
      {
        taskOptions := taskOptions + [commonTasks[i]];
      }
      for i := 0 to |postSingleTasks|
        invariant taskOptions == commonTasks + postSingleTasks[..i]
      {
        taskOptions := taskOptions + [postSingleTasks[i]];
      }
      for i := 0 to |postSolutionTasks|
        invariant taskOptions == commonTasks + postSingleTasks + postSolutionTasks[..i]
      {
        taskOptions := taskOptions + [postSolutionTasks[i]];
      }
    }

    /** Exec: the three command handlers. */
    method Exec(rev: Revision, commandName: string, doDefault: bool, host: Host) returns (o: Outcome)
      requires Valid()
      modifies removeAndSortUsings
      ensures o == ExecOutcome(rev, commandName, doDefault, host, old(removeAndSortUsings.isTemporarilyDisabled))
      ensures removeAndSortUsings.isTemporarilyDisabled == o.disabled
    {
      if !doDefault {
        return Outcome([], removeAndSortUsings.isTemporarilyDisabled, false, false);
      }
      if commandName == SweeperAllCommand {
        o := ExecSweeperAll(host);
      } else if commandName == SweeperCommand {
        o := ExecSweeper(rev, host);
      } else if commandName == SweeperOptionsCommand {
        o := ExecSweeperOptions(rev, host);
      } else {
        o := Outcome([], removeAndSortUsings.isTemporarilyDisabled, false, false);
      }
    }

    /** The SweeperAll handler: every project's items, then the solution tasks, then the resets. */
    method ExecSweeperAll(host: Host) returns (o: Outcome)
      requires Valid()
      modifies removeAndSortUsings
      ensures o == SweeperAll(host, old(removeAndSortUsings.isTemporarilyDisabled))
      ensures removeAndSortUsings.isTemporarilyDisabled == o.disabled
    {
      var effects: seq<Effect>;
      if |host.projects| > 0 {
        var work := RunProjects(host.enabled, host.projects);
        var solution := RunSolutionStyleTasks(postSolutionTasks, host.enabled, host.solutionThrowing);
        var resetCommon := ResetTasks(commonTasks);
        var resetSolution := ResetTasks(postSolutionTasks);
        effects := work + solution + resetCommon + resetSolution;
      } else {
        effects := [Line(NoProjects)];
      }
      effects := [ClearOutput, Line(Starting)] + effects + [Line(Complete)];
      if host.activeWindowItem.Some? {
        effects := effects + [OpenAndActivate(host.activeWindowItem.value)];
      }
      o := Outcome(effects, removeAndSortUsings.isTemporarilyDisabled, true, false);
    }

    /** SweeperAll's foreach over the solution's projects. */
    method RunProjects(enabled: set<TaskId>, projects: seq<Project>) returns (effects: seq<Effect>)
      requires Valid()
      modifies removeAndSortUsings
      ensures effects == ProjectsLoop(enabled, projects, old(removeAndSortUsings.isTemporarilyDisabled), |projects|).effects
      ensures removeAndSortUsings.isTemporarilyDisabled ==
        ProjectsLoop(enabled, projects, old(removeAndSortUsings.isTemporarilyDisabled), |projects|).disabled
    {
      ghost var d0 := removeAndSortUsings.isTemporarilyDisabled;
      effects := [];
      var i := 0;
      while i < |projects|
        invariant 0 <= i <= |projects|
        invariant ProjectsLoop(enabled, projects, d0, i) == Run(effects, removeAndSortUsings.isTemporarilyDisabled)
      {
        var items := projects[i].items;
        if |items| > 0 {
          var r := RunEachItem(commonTasks, enabled, items);
          effects := effects + r;
        } else {
          effects := effects + [Line(SkippingProject(projects[i].name))];
        }
        i := i + 1;
      }
    }

    /** The Sweeper handler: the active document's item, then reopening it. */
    method ExecSweeper(rev: Revision, host: Host) returns (o: Outcome)
      requires Valid()
      modifies removeAndSortUsings
      ensures o == SweeperOne(rev, host, old(removeAndSortUsings.isTemporarilyDisabled))
      ensures removeAndSortUsings.isTemporarilyDisabled == o.disabled
    {
      var effects: seq<Effect>;
      if host.activeDocument.None? {
        effects := [Line(NoActiveDocument)];
      } else if host.activeDocument.value.None? {
        effects := [Line(NotAProjectItem)];
      } else {
        var p := host.activeDocument.value.value;
        var a := RunProjectItemStyleTasks(commonTasks, host.enabled, p);
        var ra := ResetTasks(commonTasks);
        var b := RunProjectItemStyleTasks(postSingleTasks, host.enabled, p);
        var rb := ResetTasks(postSingleTasks);
        effects := a + ra + b + rb;
      }
      effects := [ClearOutput, Line(Starting)] + effects + [Line(Complete)];
      if host.activeDocument.Some? && host.activeDocument.value.Some? {
        o := Outcome(effects + [OpenAndActivate(host.activeDocument.value.value.name)],
                     removeAndSortUsings.isTemporarilyDisabled, true, false);
      } else if rev == AsWritten {
        o := Outcome(effects, removeAndSortUsings.isTemporarilyDisabled, false, true);
      } else {
        o := Outcome(effects, removeAndSortUsings.isTemporarilyDisabled, true, false);
      }
    }

    /** The SweeperOptions handler: the option window, then reopening the active window's item. */
    method ExecSweeperOptions(rev: Revision, host: Host) returns (o: Outcome)
      requires Valid()
      ensures o == SweeperOptions(rev, host, removeAndSortUsings.isTemporarilyDisabled)
    {
      var taskOptions := TaskOptions();
      var effects := [ShowOptions(taskOptions)];
      var d := removeAndSortUsings.isTemporarilyDisabled;
      if host.activeWindowItem.Some? {
        o := Outcome(effects + [OpenAndActivate(host.activeWindowItem.value)], d, true, false);
      } else if rev == AsWritten {
        o := Outcome(effects, d, false, true);
      } else {
        o := Outcome(effects, d, true, false);
      }
    }
  }

  lemma {:induction false} TaskLoopStopSticks(tasks: seq<TaskId>, enabled: set<TaskId>, item: Item, disabled: bool, m: nat, n: nat)
    requires m <= n <= |tasks| && TaskLoop(tasks, enabled, item, disabled, m).stopped
    ensures TaskLoop(tasks, enabled, item, disabled, n) == TaskLoop(tasks, enabled, item, disabled, m)
    decreases n
  {
    if n > m {
      TaskLoopStopSticks(tasks, enabled, item, disabled, m, n - 1);
    }
  }

  lemma {:induction false} SolutionStopSticks(tasks: seq<TaskId>, enabled: set<TaskId>, throwing: set<TaskId>, m: nat, n: nat)
    requires m <= n <= |tasks| && SolutionLoop(tasks, enabled, throwing, m).stopped
    ensures SolutionLoop(tasks, enabled, throwing, n) == SolutionLoop(tasks, enabled, throwing, m)
    decreases n
  {
    if n > m {
      SolutionStopSticks(tasks, enabled, throwing, m, n - 1);
    }
  }

  // ---------------------------------------------------------------------------
  // Which tasks run on an item

  /** The tasks handed to PerformStyleTask, in order. */
  function Performed(effects: seq<Effect>): seq<TaskId>
  {
    if effects == [] then [] else (if effects[0].Perform? then [effects[0].task] else []) + Performed(effects[1..])
  }

  lemma {:induction false} PerformedAppend(a: seq<Effect>, b: seq<Effect>)
    ensures Performed(a + b) == Performed(a) + Performed(b)
  {
    if a == [] {
      assert a + b == b;
    } else {
      var x := if a[0].Perform? then [a[0].task] else [];
      assert (a + b)[0] == a[0] && (a + b)[1..] == a[1..] + b;
      assert Performed(a + b) == x + Performed(a[1..] + b);
      PerformedAppend(a[1..], b);
    }
  }

  /**
   * The reference: every enabled task of the list in order, except that a task that throws
   * is the last one (the RemoveAndSortUsings task never throws out of its work).
   */
  function ExpectedRuns(tasks: seq<TaskId>, enabled: set<TaskId>, throwing: set<TaskId>): seq<TaskId>
  {
    if tasks == [] then []
    else
      var t := tasks[0];
      if t !in enabled then ExpectedRuns(tasks[1..], enabled, throwing)
      else if t in throwing && t != RemoveAndSortUsingsTask then [t]
      else [t] + ExpectedRuns(tasks[1..], enabled, throwing)
  }

  lemma TaskStepPerforms(t: TaskId, enabled: set<TaskId>, item: Item, disabled: bool)
    ensures Performed(TaskStep(t, enabled, item, disabled).effects) == if t in enabled then [t] else []
    ensures TaskStep(t, enabled, item, disabled).stopped == (t in enabled && t in item.throwing && t != RemoveAndSortUsingsTask)
  {
    var s := TaskStep(t, enabled, item, disabled);
    if t !in enabled {
      assert Performed(s.effects) == [] + Performed([]);
    } else {
      var head := [Line(Running(t)), Perform(t, item.name)];
      var tail := s.effects[2..];
      assert s.effects == head + tail;
      assert Performed(tail) == [] by {
        if tail != [] {
          assert tail == [RemoveAndSortCommand(item.name)];
          assert Performed(tail) == [] + Performed(tail[1..]);
        }
      }
      assert Performed(head) == [t] by {
        assert Performed(head) == [] + Performed(head[1..]);
        assert head[1..] == [Perform(t, item.name)];
        assert Performed(head[1..]) == [t] + Performed([]);
      }
      PerformedAppend(head, tail);
    }
  }

  lemma ExpectedRunsStep(tasks: seq<TaskId>, enabled: set<TaskId>, throwing: set<TaskId>, i: nat)
    requires i < |tasks|
    ensures ExpectedRuns(tasks[i..], enabled, throwing) ==
      if tasks[i] !in enabled then ExpectedRuns(tasks[i + 1..], enabled, throwing)
      else if tasks[i] in throwing && tasks[i] != RemoveAndSortUsingsTask then [tasks[i]]
      else [tasks[i]] + ExpectedRuns(tasks[i + 1..], enabled, throwing)
  {
    assert tasks[i..][0] == tasks[i] && tasks[i..][1..] == tasks[i + 1..];
  }

  /** The statement of TaskLoopRunsExpected for the first n tasks. */
  predicate RunsSoFar(tasks: seq<TaskId>, enabled: set<TaskId>, item: Item, disabled: bool, n: nat)
    requires n <= |tasks|
  {
    var loop := TaskLoop(tasks, enabled, item, disabled, n);
    Performed(loop.effects) + (if loop.stopped then [] else ExpectedRuns(tasks[n..], enabled, item.throwing)) ==
    ExpectedRuns(tasks, enabled, item.throwing)
  }

  lemma TaskLoopStepPerforms(tasks: seq<TaskId>, enabled: set<TaskId>, item: Item, disabled: bool, n: nat)
    requires 0 < n <= |tasks| && !TaskLoop(tasks, enabled, item, disabled, n - 1).stopped
    ensures var t := tasks[n - 1];
      Performed(TaskLoop(tasks, enabled, item, disabled, n).effects) ==
        Performed(TaskLoop(tasks, enabled, item, disabled, n - 1).effects) + (if t in enabled then [t] else []) &&
      TaskLoop(tasks, enabled, item, disabled, n).stopped == (t in enabled && t in item.throwing && t != RemoveAndSortUsingsTask)
  {
    var before := TaskLoop(tasks, enabled, item, disabled, n - 1);
    var st := TaskStep(tasks[n - 1], enabled, item, before.disabled);
    assert TaskLoop(tasks, enabled, item, disabled, n) == Loop(before.effects + st.effects, st.disabled, st.stopped);
    TaskStepPerforms(tasks[n - 1], enabled, item, before.disabled);
    PerformedAppend(before.effects, st.effects);
  }

  lemma TaskLoopRunsExpectedStep(tasks: seq<TaskId>, enabled: set<TaskId>, item: Item, disabled: bool, n: nat)
    requires 0 < n <= |tasks| && RunsSoFar(tasks, enabled, item, disabled, n - 1)
    ensures RunsSoFar(tasks, enabled, item, disabled, n)
  {
    var before := TaskLoop(tasks, enabled, item, disabled, n - 1);
    if !before.stopped {
      var t := tasks[n - 1];
      TaskLoopStepPerforms(tasks, enabled, item, disabled, n);
      ExpectedRunsStep(tasks, enabled, item.throwing, n - 1);
      RunsArith(Performed(before.effects), ExpectedRuns(tasks[n - 1..], enabled, item.throwing),
        ExpectedRuns(tasks, enabled, item.throwing), ExpectedRuns(tasks[n..], enabled, item.throwing),
        t, t in enabled, t in item.throwing && t != RemoveAndSortUsingsTask);
    }
  }

  lemma RunsArith(done: seq<TaskId>, here: seq<TaskId>, all: seq<TaskId>, rest: seq<TaskId>, t: TaskId, runs: bool, stops: bool)
    requires done + here == all
    requires here == if !runs then rest else if stops then [t] else [t] + rest
    ensures (done + if runs then [t] else []) + (if runs && stops then [] else rest) == all
  {
  }

  lemma {:induction false} TaskLoopRunsExpected(tasks: seq<TaskId>, enabled: set<TaskId>, item: Item, disabled: bool, n: nat)
    requires n <= |tasks|
    ensures var loop := TaskLoop(tasks, enabled, item, disabled, n);
      Performed(loop.effects) + (if loop.stopped then [] else ExpectedRuns(tasks[n..], enabled, item.throwing)) ==
      ExpectedRuns(tasks, enabled, item.throwing)
    decreases n
  {
    if n == 0 {
      assert tasks[0..] == tasks;
    } else {
      TaskLoopRunsExpected(tasks, enabled, item, disabled, n - 1);
      TaskLoopRunsExpectedStep(tasks, enabled, item, disabled, n);
    }
  }

  /**
   * On a styled item, PerformStyleTask is called on exactly the enabled tasks, in list
   * order, up to and including the first one that throws; the remaining tasks of that
   * item are skipped.
   */
  lemma EnabledTasksRunInOrder(tasks: seq<TaskId>, enabled: set<TaskId>, item: Item, disabled: bool)
    requires IsStyledFile(item.name)
    ensures Performed(RunOwn(tasks, enabled, item, disabled).effects) == ExpectedRuns(tasks, enabled, item.throwing)
  {
    var loop := TaskLoop(tasks, enabled, item, disabled, |tasks|);
    TaskLoopRunsExpected(tasks, enabled, item, disabled, |tasks|);
    assert tasks[|tasks|..] == [];
    var head := [OpenAndActivate(item.name), Line(WorkingOn(item.name))];
    var close := if !item.wasOpen && item.savedAfter then [CloseWindow(item.name)] else [];
    assert Performed(head) == [] by {
      assert Performed(head) == [] + Performed(head[1..]);
      assert Performed(head[1..]) == [] + Performed([]);
    }
    assert Performed(close) == [] by {
      if close != [] {
        assert Performed(close) == [] + Performed(close[1..]);
      }
    }
    PerformedAppend(head, loop.effects);
    PerformedAppend(head + loop.effects, close);
  }

  /** An item that is not a styled file gets no tasks of its own; its children are still visited. */
  lemma OtherItemsOnlyRecurse(tasks: seq<TaskId>, enabled: set<TaskId>, item: Item, disabled: bool)
    requires !IsStyledFile(item.name)
    ensures RunItem(tasks, enabled, item, disabled) == RunItems(tasks, enabled, item.children, disabled, |item.children|)
  {
  }

  // ---------------------------------------------------------------------------
  // Which items are worked on

  /** The items opened for work, in order. */
  function WorkedOn(effects: seq<Effect>): seq<string>
  {
    if effects == [] then [] else (if effects[0].OpenAndActivate? then [effects[0].item] else []) + WorkedOn(effects[1..])
  }

  lemma {:induction false} WorkedOnAppend(a: seq<Effect>, b: seq<Effect>)
    ensures WorkedOn(a + b) == WorkedOn(a) + WorkedOn(b)
  {
    if a == [] {
      assert a + b == b;
    } else {
      var x := if a[0].OpenAndActivate? then [a[0].item] else [];
      assert (a + b)[0] == a[0] && (a + b)[1..] == a[1..] + b;
      assert WorkedOn(a + b) == x + WorkedOn(a[1..] + b);
      WorkedOnAppend(a[1..], b);
    }
  }

  /** The reference: the styled items of a tree, each before its children. */
  function StyledItem(item: Item): seq<string>
    decreases item, 1
  {
    (if IsStyledFile(item.name) then [item.name] else []) + StyledUpTo(item.children, |item.children|)
  }

  function StyledUpTo(items: seq<Item>, n: nat): seq<string>
    requires n <= |items|
    decreases items, 0, n
  {
    if n == 0 then [] else StyledUpTo(items, n - 1) + StyledItem(items[n - 1])
  }

  lemma {:induction false} NoOpenWorksOnNothing(effects: seq<Effect>)
    requires forall k :: 0 <= k < |effects| ==> !effects[k].OpenAndActivate?
    ensures WorkedOn(effects) == []
  {
    if effects != [] {
      assert forall k :: 0 <= k < |effects[1..]| ==> effects[1..][k] == effects[k + 1];
      NoOpenWorksOnNothing(effects[1..]);
    }
  }

  predicate NoOpens(effects: seq<Effect>)
  {
    forall k :: 0 <= k < |effects| ==> !effects[k].OpenAndActivate?
  }

  lemma NoOpensAppend(a: seq<Effect>, b: seq<Effect>)
    requires NoOpens(a) && NoOpens(b)
    ensures NoOpens(a + b)
  {
    assert forall k :: |a| <= k < |a + b| ==> (a + b)[k] == b[k - |a|];
  }

  lemma {:induction false} TaskLoopNoOpens(tasks: seq<TaskId>, enabled: set<TaskId>, item: Item, disabled: bool, n: nat)
    requires n <= |tasks|
    ensures NoOpens(TaskLoop(tasks, enabled, item, disabled, n).effects)
    decreases n
  {
    if n > 0 {
      TaskLoopNoOpens(tasks, enabled, item, disabled, n - 1);
      var before := TaskLoop(tasks, enabled, item, disabled, n - 1);
      if !before.stopped {
        NoOpensAppend(before.effects, TaskStep(tasks[n - 1], enabled, item, before.disabled).effects);
      }
    }
  }

  lemma TaskLoopOpensNothing(tasks: seq<TaskId>, enabled: set<TaskId>, item: Item, disabled: bool)
    ensures WorkedOn(TaskLoop(tasks, enabled, item, disabled, |tasks|).effects) == []
  {
    TaskLoopNoOpens(tasks, enabled, item, disabled, |tasks|);
    NoOpenWorksOnNothing(TaskLoop(tasks, enabled, item, disabled, |tasks|).effects);
  }

  lemma OwnWorkOpensItself(tasks: seq<TaskId>, enabled: set<TaskId>, item: Item, disabled: bool)
    ensures WorkedOn(RunOwn(tasks, enabled, item, disabled).effects) == if IsStyledFile(item.name) then [item.name] else []
  {
    if IsStyledFile(item.name) {
      var loop := TaskLoop(tasks, enabled, item, disabled, |tasks|);
      var head := [OpenAndActivate(item.name), Line(WorkingOn(item.name))];
      var close := if !item.wasOpen && item.savedAfter then [CloseWindow(item.name)] else [];
      TaskLoopOpensNothing(tasks, enabled, item, disabled);
      assert WorkedOn(head) == [item.name] by {
        assert WorkedOn(head) == [item.name] + WorkedOn(head[1..]);
        assert WorkedOn(head[1..]) == [] + WorkedOn([]);
      }
      assert WorkedOn(close) == [] by {
        if close != [] {
          assert WorkedOn(close) == [] + WorkedOn(close[1..]);
        }
      }
      WorkedOnAppend(head, loop.effects);
      WorkedOnAppend(head + loop.effects, close);
    }
  }

  lemma {:induction false} RunItemWorksInPreOrder(tasks: seq<TaskId>, enabled: set<TaskId>, item: Item, disabled: bool)
    ensures WorkedOn(RunItem(tasks, enabled, item, disabled).effects) == StyledItem(item)
    decreases item, 1
  {
    var own := RunOwn(tasks, enabled, item, disabled);
    OwnWorkOpensItself(tasks, enabled, item, disabled);
    RunItemsWorkInPreOrder(tasks, enabled, item.children, own.disabled, |item.children|);
    WorkedOnAppend(own.effects, RunItems(tasks, enabled, item.children, own.disabled, |item.children|).effects);
  }

  lemma {:induction false} RunItemsWorkInPreOrder(tasks: seq<TaskId>, enabled: set<TaskId>, items: seq<Item>, disabled: bool, n: nat)
    requires n <= |items|
    ensures WorkedOn(RunItems(tasks, enabled, items, disabled, n).effects) == StyledUpTo(items, n)
    decreases items, 0, n
  {
    if n > 0 {
      var before := RunItems(tasks, enabled, items, disabled, n - 1);
      RunItemsWorkInPreOrder(tasks, enabled, items, disabled, n - 1);
      RunItemWorksInPreOrder(tasks, enabled, items[n - 1], before.disabled);
      WorkedOnAppend(before.effects, RunItem(tasks, enabled, items[n - 1], before.disabled).effects);
    }
  }

  /**
   * Every styled file of a collection of items and of their children, at any depth, is
   * opened and worked on exactly once, each before its children, whatever the parents'
   * names and whatever exceptions the tasks throw.
   */
  lemma EveryStyledItemWorkedOnInPreOrder(tasks: seq<TaskId>, enabled: set<TaskId>, items: seq<Item>, disabled: bool)
    ensures WorkedOn(RunItems(tasks, enabled, items, disabled, |items|).effects) == StyledUpTo(items, |items|)
  {
    RunItemsWorkInPreOrder(tasks, enabled, items, disabled, |items|);
  }

  // ---------------------------------------------------------------------------
  // The RemoveAndSortUsings flag over a pass

  predicate NoRemoveAndSort(effects: seq<Effect>)
  {
    forall k :: 0 <= k < |effects| ==> !effects[k].RemoveAndSortCommand?
  }

  lemma NoRemoveAndSortAppend(a: seq<Effect>, b: seq<Effect>)
    requires NoRemoveAndSort(a) && NoRemoveAndSort(b)
    ensures NoRemoveAndSort(a + b)
  {
    assert forall k :: |a| <= k < |a + b| ==> (a + b)[k] == b[k - |a|];
  }

  lemma {:induction false} TaskLoopStaysDisabled(tasks: seq<TaskId>, enabled: set<TaskId>, item: Item, n: nat)
    requires n <= |tasks|
    ensures TaskLoop(tasks, enabled, item, true, n).disabled && NoRemoveAndSort(TaskLoop(tasks, enabled, item, true, n).effects)
    decreases n
  {
    if n > 0 {
      TaskLoopStaysDisabled(tasks, enabled, item, n - 1);
      var before := TaskLoop(tasks, enabled, item, true, n - 1);
      if !before.stopped {
        NoRemoveAndSortAppend(before.effects, TaskStep(tasks[n - 1], enabled, item, true).effects);
      }
    }
  }

  lemma {:induction false} RunItemStaysDisabled(tasks: seq<TaskId>, enabled: set<TaskId>, item: Item)
    ensures RunItem(tasks, enabled, item, true).disabled && NoRemoveAndSort(RunItem(tasks, enabled, item, true).effects)
    decreases item, 1
  {
    var own := RunOwn(tasks, enabled, item, true);
    assert own.disabled && NoRemoveAndSort(own.effects) by {
      if IsStyledFile(item.name) {
        var loop := TaskLoop(tasks, enabled, item, true, |tasks|);
        TaskLoopStaysDisabled(tasks, enabled, item, |tasks|);
        var head := [OpenAndActivate(item.name), Line(WorkingOn(item.name))];
        var close := if !item.wasOpen && item.savedAfter then [CloseWindow(item.name)] else [];
        NoRemoveAndSortAppend(head, loop.effects);
        NoRemoveAndSortAppend(head + loop.effects, close);
      }
    }
    RunItemsStayDisabled(tasks, enabled, item.children, |item.children|);
    NoRemoveAndSortAppend(own.effects, RunItems(tasks, enabled, item.children, true, |item.children|).effects);
  }

  lemma {:induction false} RunItemsStayDisabled(tasks: seq<TaskId>, enabled: set<TaskId>, items: seq<Item>, n: nat)
    requires n <= |items|
    ensures RunItems(tasks, enabled, items, true, n).disabled && NoRemoveAndSort(RunItems(tasks, enabled, items, true, n).effects)
    decreases items, 0, n
  {
    if n > 0 {
      RunItemsStayDisabled(tasks, enabled, items, n - 1);
      RunItemStaysDisabled(tasks, enabled, items[n - 1]);
      NoRemoveAndSortAppend(RunItems(tasks, enabled, items, true, n - 1).effects, RunItem(tasks, enabled, items[n - 1], true).effects);
    }
  }

  /**
   * Once the RemoveAndSortUsings task has switched itself off, no later item of the pass
   * gets Edit.RemoveAndSort, and the flag stays set until the pass's ResetTasks.
   */
  lemma SwitchedOffForTheRestOfThePass(enabled: set<TaskId>, projects: seq<Project>, n: nat)
    requires n <= |projects|
    ensures ProjectsLoop(enabled, projects, true, n).disabled
    ensures NoRemoveAndSort(ProjectsLoop(enabled, projects, true, n).effects)
  {
    if n > 0 {
      SwitchedOffForTheRestOfThePass(enabled, projects, n - 1);
      var before := ProjectsLoop(enabled, projects, true, n - 1);
      var p := projects[n - 1];
      if |p.items| > 0 {
        RunItemsStayDisabled(CommonTasks, enabled, p.items, |p.items|);
        NoRemoveAndSortAppend(before.effects, RunItems(CommonTasks, enabled, p.items, true, |p.items|).effects);
      } else {
        NoRemoveAndSortAppend(before.effects, [Line(SkippingProject(p.name))]);
      }
    }
  }

  /** After SweeperAll has run the tasks, the flag is clear again for the next pass. */
  lemma PassesEndSwitchedOn(host: Host, disabled: bool)
    ensures |host.projects| > 0 ==> !SweeperAll(host, disabled).disabled
    ensures |host.projects| == 0 ==> SweeperAll(host, disabled).disabled == disabled
  {
    assert CommonTasks[1] == RemoveAndSortUsingsTask;
    assert RemoveAndSortUsingsTask !in PostSolutionTasks && RemoveAndSortUsingsTask !in PostSingleTasks;
  }

  // ---------------------------------------------------------------------------
  // The shape of SweeperAll

  /** The effects item runs make: output lines, windows, the tasks' calls. */
  predicate IsItemEffect(e: Effect)
  {
    e.Line? || e.OpenAndActivate? || e.Perform? || e.RemoveAndSortCommand? || e.CloseWindow?
  }

  predicate AllItemEffects(effects: seq<Effect>)
  {
    forall k :: 0 <= k < |effects| ==> IsItemEffect(effects[k])
  }

  lemma AllItemEffectsAppend(a: seq<Effect>, b: seq<Effect>)
    requires AllItemEffects(a) && AllItemEffects(b)
    ensures AllItemEffects(a + b)
  {
    assert forall k :: |a| <= k < |a + b| ==> (a + b)[k] == b[k - |a|];
  }

  lemma {:induction false} TaskLoopItemEffects(tasks: seq<TaskId>, enabled: set<TaskId>, item: Item, disabled: bool, n: nat)
    requires n <= |tasks|
    ensures AllItemEffects(TaskLoop(tasks, enabled, item, disabled, n).effects)
    decreases n
  {
    if n > 0 {
      TaskLoopItemEffects(tasks, enabled, item, disabled, n - 1);
      var before := TaskLoop(tasks, enabled, item, disabled, n - 1);
      if !before.stopped {
        AllItemEffectsAppend(before.effects, TaskStep(tasks[n - 1], enabled, item, before.disabled).effects);
      }
    }
  }

  lemma {:induction false} RunItemItemEffects(tasks: seq<TaskId>, enabled: set<TaskId>, item: Item, disabled: bool)
    ensures AllItemEffects(RunItem(tasks, enabled, item, disabled).effects)
    decreases item, 1
  {
    var own := RunOwn(tasks, enabled, item, disabled);
    assert AllItemEffects(own.effects) by {
      if IsStyledFile(item.name) {
        var loop := TaskLoop(tasks, enabled, item, disabled, |tasks|);
        TaskLoopItemEffects(tasks, enabled, item, disabled, |tasks|);
        var head := [OpenAndActivate(item.name), Line(WorkingOn(item.name))];
        var close := if !item.wasOpen && item.savedAfter then [CloseWindow(item.name)] else [];
        AllItemEffectsAppend(head, loop.effects);
        AllItemEffectsAppend(head + loop.effects, close);
      }
    }
    RunItemsItemEffects(tasks, enabled, item.children, own.disabled, |item.children|);
    AllItemEffectsAppend(own.effects, RunItems(tasks, enabled, item.children, own.disabled, |item.children|).effects);
  }

  lemma {:induction false} RunItemsItemEffects(tasks: seq<TaskId>, enabled: set<TaskId>, items: seq<Item>, disabled: bool, n: nat)
    requires n <= |items|
    ensures AllItemEffects(RunItems(tasks, enabled, items, disabled, n).effects)
    decreases items, 0, n
  {
    if n > 0 {
      var before := RunItems(tasks, enabled, items, disabled, n - 1);
      RunItemsItemEffects(tasks, enabled, items, disabled, n - 1);
      RunItemItemEffects(tasks, enabled, items[n - 1], before.disabled);
      AllItemEffectsAppend(before.effects, RunItem(tasks, enabled, items[n - 1], before.disabled).effects);
    }
  }

  lemma {:induction false} ProjectsLoopItemEffects(enabled: set<TaskId>, projects: seq<Project>, disabled: bool, n: nat)
    requires n <= |projects|
    ensures AllItemEffects(ProjectsLoop(enabled, projects, disabled, n).effects)
  {
    if n > 0 {
      var before := ProjectsLoop(enabled, projects, disabled, n - 1);
      ProjectsLoopItemEffects(enabled, projects, disabled, n - 1);
      var p := projects[n - 1];
      if |p.items| > 0 {
        RunItemsItemEffects(CommonTasks, enabled, p.items, before.disabled, |p.items|);
        AllItemEffectsAppend(before.effects, RunItems(CommonTasks, enabled, p.items, before.disabled, |p.items|).effects);
      } else {
        AllItemEffectsAppend(before.effects, [Line(SkippingProject(p.name))]);
      }
    }
  }

  lemma {:induction false} SolutionLoopRunsNoItemTask(tasks: seq<TaskId>, enabled: set<TaskId>, throwing: set<TaskId>, n: nat)
    requires n <= |tasks|
    ensures forall k :: 0 <= k < |SolutionLoop(tasks, enabled, throwing, n).effects| ==>
      var e := SolutionLoop(tasks, enabled, throwing, n).effects[k]; e.Line? || e.PerformSolution?
  {
    if n > 0 {
      SolutionLoopRunsNoItemTask(tasks, enabled, throwing, n - 1);
    }
  }

  lemma {:induction false} ResetsAreResets(tasks: seq<TaskId>)
    ensures |Resets(tasks)| == |tasks|
    ensures forall k :: 0 <= k < |tasks| ==> Resets(tasks)[k] == ResetCall(tasks[k])
  {
    if tasks != [] {
      ResetsAreResets(tasks[..|tasks| - 1]);
    }
  }

  /** The phase a task call belongs to: item work 0, solution tasks 1, Reset 2; other effects -1. */
  function Phase(e: Effect): int
  {
    match e
    case Perform(_, _) => 0
    case RemoveAndSortCommand(_) => 0
    case PerformSolution(_) => 1
    case ResetCall(_) => 2
    case _ => -1
  }

  predicate PhasesIn(effects: seq<Effect>, lo: int, hi: int)
  {
    forall k :: 0 <= k < |effects| ==> Phase(effects[k]) == -1 || lo <= Phase(effects[k]) <= hi
  }

  /** No task call of a later phase comes before one of an earlier phase. */
  predicate InPhaseOrder(effects: seq<Effect>)
  {
    forall i, j :: 0 <= i < j < |effects| && Phase(effects[i]) >= 0 && Phase(effects[j]) >= 0 ==>
      Phase(effects[i]) <= Phase(effects[j])
  }

  lemma ConcatInPhaseOrder(x: seq<Effect>, w: seq<Effect>, sol: seq<Effect>, r: seq<Effect>, y: seq<Effect>)
    requires PhasesIn(x, 3, 3) && PhasesIn(w, 0, 0) && PhasesIn(sol, 1, 1) && PhasesIn(r, 2, 2) && PhasesIn(y, 3, 3)
    ensures InPhaseOrder(x + w + sol + r + y)
  {
    var e := x + w + sol + r + y;
    var a := |x|;
    var b := a + |w|;
    var c := b + |sol|;
    forall k | 0 <= k < |e|
      ensures Phase(e[k]) == -1 || (Phase(e[k]) == 0 && k < b) || (Phase(e[k]) == 1 && b <= k < c) || (Phase(e[k]) == 2 && c <= k)
    {
      if k < a {
        assert e[k] == x[k];
      } else if k < b {
        assert e[k] == w[k - a];
      } else if k < c {
        assert e[k] == sol[k - b];
      } else if k < c + |r| {
        assert e[k] == r[k - c];
      } else {
        assert e[k] == y[k - c - |r|];
      }
    }
  }

  lemma ItemEffectsArePhaseZero(effects: seq<Effect>)
    requires AllItemEffects(effects)
    ensures PhasesIn(effects, 0, 0)
  {
  }

  lemma RunSolutionIsPhaseOne(tasks: seq<TaskId>, enabled: set<TaskId>, throwing: set<TaskId>)
    ensures PhasesIn(RunSolution(tasks, enabled, throwing), 1, 1)
  {
    var loop := SolutionLoop(tasks, enabled, throwing, |tasks|).effects;
    SolutionLoopRunsNoItemTask(tasks, enabled, throwing, |tasks|);
    var e := RunSolution(tasks, enabled, throwing);
    assert forall k :: 2 <= k < |e| ==> e[k] == loop[k - 2];
  }

  lemma ResetsArePhaseTwo(a: seq<TaskId>, b: seq<TaskId>)
    ensures PhasesIn(Resets(a) + Resets(b), 2, 2)
  {
    ResetsAreResets(a);
    ResetsAreResets(b);
    var e := Resets(a) + Resets(b);
    assert forall k :: |a| <= k < |e| ==> e[k] == Resets(b)[k - |a|];
  }

  /** SweeperAll with projects: the start lines, the item work, the solution tasks, the Resets, the end. */
  lemma SweeperAllShape(host: Host, disabled: bool)
    requires |host.projects| > 0
    ensures SweeperAll(host, disabled).effects ==
      [ClearOutput, Line(Starting)] + ProjectsLoop(host.enabled, host.projects, disabled, |host.projects|).effects +
      RunSolution(PostSolutionTasks, host.enabled, host.solutionThrowing) +
      (Resets(CommonTasks) + Resets(PostSolutionTasks)) +
      ([Line(Complete)] + if host.activeWindowItem.Some? then [OpenAndActivate(host.activeWindowItem.value)] else [])
  {
  }

  /**
   * SweeperAll on a solution with projects: all item work (PerformStyleTask and
   * Edit.RemoveAndSort on items) comes before the solution tasks, and the Resets come
   * after both.
   */
  lemma SweeperAllOrder(host: Host, disabled: bool)
    requires |host.projects| > 0
    ensures InPhaseOrder(SweeperAll(host, disabled).effects)
  {
    var r := ProjectsLoop(host.enabled, host.projects, disabled, |host.projects|);
    SweeperAllShape(host, disabled);
    ProjectsLoopItemEffects(host.enabled, host.projects, disabled, |host.projects|);
    ItemEffectsArePhaseZero(r.effects);
    RunSolutionIsPhaseOne(PostSolutionTasks, host.enabled, host.solutionThrowing);
    ResetsArePhaseTwo(CommonTasks, PostSolutionTasks);
    ConcatInPhaseOrder([ClearOutput, Line(Starting)], r.effects,
      RunSolution(PostSolutionTasks, host.enabled, host.solutionThrowing),
      Resets(CommonTasks) + Resets(PostSolutionTasks),
      [Line(Complete)] + if host.activeWindowItem.Some? then [OpenAndActivate(host.activeWindowItem.value)] else []);
  }

  /** With no projects nothing runs: no item task, no solution task, no Reset. */
  lemma NoProjectsNoTasks(host: Host, disabled: bool)
    requires |host.projects| == 0
    ensures var e := SweeperAll(host, disabled).effects;
      forall k :: 0 <= k < |e| ==> !e[k].Perform? && !e[k].PerformSolution? && !e[k].ResetCall?
  {
  }

  // ---------------------------------------------------------------------------
  // Commands

  /**
   * QueryStatus enables exactly the commands Exec takes up under the default option: in
   * either revision Exec handles them or faults on them. Only the corrected Exec handles
   * every one it is offered; the written one can fault on Sweeper and SweeperOptions
   * (AsWrittenReopenFaults). With any other text request the status is left alone.
   */
  lemma QueryStatusMatchesExec(rev: Revision, commandName: string, status: nat, host: Host, disabled: bool)
    requires status != SupportedAndEnabled
    ensures var o := ExecOutcome(rev, commandName, true, host, disabled);
      QueryStatus(commandName, true, status) == SupportedAndEnabled <==> o.handled || o.faulted
    ensures rev == Corrected ==>
      (QueryStatus(commandName, true, status) == SupportedAndEnabled <==>
       ExecOutcome(Corrected, commandName, true, host, disabled).handled)
    ensures QueryStatus(commandName, false, status) == status
  {
  }

  /** Exec does nothing, and reports the command unhandled, for any option but the default one. */
  lemma ExecNeedsDefaultOption(rev: Revision, commandName: string, host: Host, disabled: bool)
    ensures ExecOutcome(rev, commandName, false, host, disabled) == Outcome([], disabled, false, false)
  {
  }

  /**
   * As written, Sweeper reopens activeDoc.ProjectItem after the run even when there was no
   * active document or it was not a project item, and SweeperOptions reopens the active
   * window's item even when it has none: both dereference null, so Exec throws and the
   * command is left unhandled.
   */
  lemma AsWrittenReopenFaults(host: Host, disabled: bool)
    ensures (host.activeDocument.None? || host.activeDocument == Some(None)) ==>
      ExecOutcome(AsWritten, SweeperCommand, true, host, disabled).faulted &&
      !ExecOutcome(AsWritten, SweeperCommand, true, host, disabled).handled
    ensures host.activeWindowItem.None? ==>
      ExecOutcome(AsWritten, SweeperOptionsCommand, true, host, disabled).faulted &&
      !ExecOutcome(AsWritten, SweeperOptionsCommand, true, host, disabled).handled
  {
  }

  /** With the reopen guarded, Exec never faults and handles exactly its three commands. */
  lemma CorrectedExecHandles(commandName: string, doDefault: bool, host: Host, disabled: bool)
    ensures !ExecOutcome(Corrected, commandName, doDefault, host, disabled).faulted
    ensures ExecOutcome(Corrected, commandName, doDefault, host, disabled).handled <==>
      doDefault && (commandName == SweeperAllCommand || commandName == SweeperCommand || commandName == SweeperOptionsCommand)
  {
  }

  /** The guard changes nothing when the item to reopen exists. */
  lemma RevisionsAgreeWithAnItem(commandName: string, doDefault: bool, host: Host, disabled: bool)
    requires host.activeWindowItem.Some? && host.activeDocument.Some? && host.activeDocument.value.Some?
    ensures ExecOutcome(AsWritten, commandName, doDefault, host, disabled) == ExecOutcome(Corrected, commandName, doDefault, host, disabled)
  {
  }
}
